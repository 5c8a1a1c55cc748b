/** The mutation of a plugin install: a list field that can be set, appended to, cleared and reset, and a
    unique edge whose column is tracked both as an edge and as a cleared field. */
module PluginInstalls {
  import opened Schema

  datatype State = State(permissions: Option<seq<string>>, appended: seq<string>, tenant: Option<Id>,
      clearedTenant: bool, cleared: set<Col>)

  const NEW := State(None, [], None, false, {})

  datatype Call =
    | SetPermissions(s: seq<string>) | AppendPermissions(s: seq<string>) | ClearPermissions | ResetPermissions
    | SetTenantID(id: Id) | ResetTenantID | ClearTenant | ResetTenant

  function After(s: State, o: Call): State {
    match o
    case SetPermissions(p) => s.(permissions := Some(p), appended := [])
    case AppendPermissions(p) => s.(appended := s.appended + p)
    case ClearPermissions => s.(permissions := None, appended := [], cleared := s.cleared + {Permissions})
    case ResetPermissions => s.(permissions := None, appended := [], cleared := s.cleared - {Permissions})
    case SetTenantID(id) => s.(tenant := Some(id))
    case ResetTenantID => s.(tenant := None)
    case ClearTenant => s.(clearedTenant := true, cleared := s.cleared + {TenantID})
    case ResetTenant => s.(tenant := None, clearedTenant := false)
  }

  function AfterAll(s: State, calls: seq<Call>): State {
    if calls == [] then s else After(AfterAll(s, calls[..|calls|-1]), calls[|calls|-1])
  }

  class PluginInstallMutation {
    var permissions: Option<seq<string>>
    var appendPermissions: seq<string>
    var tenant: Option<Id>
    var clearedTenant: bool
    var clearedFields: set<Col>

    ghost function Contents(): State
      reads this
    {
      State(permissions, appendPermissions, tenant, clearedTenant, clearedFields)
    }

    constructor ()
      ensures Contents() == NEW
    {
      permissions, appendPermissions, tenant, clearedTenant, clearedFields := None, [], None, false, {};
    }

    /** Setting the list drops what was appended but leaves a cleared mark in place. */
    method SetPermissions(s: seq<string>)
      modifies this
      ensures Contents() == After(old(Contents()), Call.SetPermissions(s))
    {
      permissions := Some(s);
      appendPermissions := [];
    }

    method AppendPermissions(s: seq<string>)
      modifies this
      ensures Contents() == After(old(Contents()), Call.AppendPermissions(s))
    {
      appendPermissions := appendPermissions + s;
    }

    method ClearPermissions()
      modifies this
      ensures Contents() == After(old(Contents()), Call.ClearPermissions)
    {
      permissions := None;
      appendPermissions := [];
      clearedFields := clearedFields + {Permissions};
    }

    method ResetPermissions()
      modifies this
      ensures Contents() == After(old(Contents()), Call.ResetPermissions)
    {
      permissions := None;
      appendPermissions := [];
      clearedFields := clearedFields - {Permissions};
    }

    method SetTenantID(id: Id)
      modifies this
      ensures Contents() == After(old(Contents()), Call.SetTenantID(id))
    {
      tenant := Some(id);
    }

    method ResetTenantID()
      modifies this
      ensures Contents() == After(old(Contents()), Call.ResetTenantID)
    {
      tenant := None;
    }

    method ClearTenant()
      modifies this
      ensures Contents() == After(old(Contents()), Call.ClearTenant)
    {
      clearedTenant := true;
      clearedFields := clearedFields + {TenantID};
    }

    /** Resetting the edge leaves its column in the cleared fields. */
    method ResetTenant()
      modifies this
      ensures Contents() == After(old(Contents()), Call.ResetTenant)
    {
      tenant := None;
      clearedTenant := false;
    }

    /** The names of the cleared nullable fields. */
    method ClearedFields() returns (fields: seq<Col>)
      ensures fields == if Permissions in clearedFields then [Permissions] else []
    {
      fields := [];
      if Permissions in clearedFields {
        fields := fields + [Permissions];
      }
    }

    /** The check of the update builder, which refuses a cleared tenant only when a tenant is also set. */
    method Check() returns (ok: bool)
      ensures ok <==> !(clearedTenant && tenant.Some?)
    {
      ok := !clearedTenant || tenant.None?;
    }
  }

  // ----- What the calls ask for -----

  /** Calls after which the pending list starts afresh. */
  predicate Restarts(o: Call) {
    o.SetPermissions? || o.ClearPermissions? || o.ResetPermissions?
  }

  /** All appended values, in call order. */
  function Appended(calls: seq<Call>): seq<string> {
    if calls == [] then [] else Values(calls[0]) + Appended(calls[1..])
  }

  function Values(o: Call): seq<string> {
    if o.AppendPermissions? then o.s else []
  }

  lemma LastCall(calls: seq<Call>)
    requires calls != []
    ensures AfterAll(NEW, calls) == After(AfterAll(NEW, calls[..|calls|-1]), calls[|calls|-1])
  {
  }

  lemma JustRestarted(calls: seq<Call>)
    requires calls != [] ==> Restarts(calls[|calls|-1])
    ensures var s := AfterAll(NEW, calls);
      && s.appended == Appended(calls[|calls|..]) == []
      && s.permissions ==
        if calls != [] && calls[|calls|-1].SetPermissions? then Some(calls[|calls|-1].s) else None
  {
    assert calls[|calls|..] == [];
  }

  /** After any calls the pending list is the value of the last Set, unless a Clear or Reset came after it,
      followed by everything appended since the last Set, Clear or Reset. */
  lemma {:induction false} PermissionsFollowCalls(calls: seq<Call>, k: nat)
    requires k <= |calls| && (k == 0 || Restarts(calls[k-1]))
    requires forall j :: k <= j < |calls| ==> !Restarts(calls[j])
    ensures var s := AfterAll(NEW, calls);
      && s.permissions == (if k > 0 && calls[k-1].SetPermissions? then Some(calls[k-1].s) else None)
      && s.appended == Appended(calls[k..])
  {
    hide Appended, AfterAll;
    var n := |calls| - 1;
    if k == |calls| {
      JustRestarted(calls);
    } else {
      LastCall(calls);
      assert forall j :: 0 <= j < n ==> calls[..n][j] == calls[j];
      PermissionsFollowCalls(calls[..n], k);
      AppendedSnoc(calls[k..n], calls[n]);
      assert calls[k..] == calls[k..n] + [calls[n]];
      assert calls[..n][k..] == calls[k..n];
    }
  }

  lemma {:induction false} AppendedSnoc(calls: seq<Call>, o: Call)
    ensures Appended(calls + [o]) == Appended(calls) + Values(o)
  {
    hide Values;
    var all := calls + [o];
    if calls == [] {
      assert all[1..] == [];
    } else {
      AppendedSnoc(calls[1..], o);
      assert all[0] == calls[0] && all[1..] == calls[1..] + [o];
    }
  }

  /** There is always such a place: the last restarting call, or the start. */
  function LastRestart(calls: seq<Call>): (k: nat)
    ensures k <= |calls| && (k == 0 || Restarts(calls[k-1]))
    ensures forall j :: k <= j < |calls| ==> !Restarts(calls[j])
  {
    var n := |calls| - 1;
    if calls == [] then 0 else if Restarts(calls[n]) then n + 1 else LastRestart(calls[..n])
  }

  /** The column of the tenant edge is marked cleared as soon as the edge was ever cleared: no reset of the
      edge or of the field takes the mark away. */
  lemma {:induction false} TenantStaysCleared(calls: seq<Call>)
    ensures TenantID in AfterAll(NEW, calls).cleared <==> ClearTenant in calls
    ensures AfterAll(NEW, calls).cleared <= {TenantID, Permissions}
  {
    if calls != [] {
      var n := |calls| - 1;
      TenantStaysCleared(calls[..n]);
      assert calls == calls[..n] + [calls[n]];
    }
  }

  /** The edge itself is cleared iff a ClearTenant followed the last ResetTenant. */
  lemma {:induction false} TenantClearedFollowsCalls(calls: seq<Call>)
    ensures AfterAll(NEW, calls).clearedTenant <==> exists i ::
      0 <= i < |calls| && calls[i] == ClearTenant && ResetTenant !in calls[i..]
  {
    if calls != [] {
      var n := |calls| - 1;
      TenantClearedFollowsCalls(calls[..n]);
      forall i | 0 <= i < n
        ensures calls[..n][i] == calls[i]
          && (ResetTenant in calls[i..] <==> ResetTenant in calls[..n][i..] || calls[n] == ResetTenant)
      {
        assert calls[i..] == calls[..n][i..] + [calls[n]];
      }
      assert calls[n..] == [calls[n]];
    }
  }

  /** A tenant is set iff a SetTenantID was followed by no reset of the field or the edge. */
  lemma {:induction false} TenantFollowsCalls(calls: seq<Call>)
    ensures AfterAll(NEW, calls).tenant.Some? <==> exists i :: SetsTenant(calls, i)
  {
    if calls != [] {
      hide SetsTenant, AfterAll;
      var n := |calls| - 1;
      TenantFollowsCalls(calls[..n]);
      LastCall(calls);
      var o := calls[n];
      forall i
        ensures SetsTenant(calls, i) <==>
          if i == n then o.SetTenantID? else SetsTenant(calls[..n], i) && o != ResetTenantID && o != ResetTenant
      {
        SetsTenantSnoc(calls, i);
      }
      assert SetsTenant(calls, n) <==> o.SetTenantID?;
    }
  }

  /** The tenant is the one set last. */
  lemma {:induction false} TenantIsLastSet(calls: seq<Call>, i: nat)
    requires i < |calls| && SetsTenant(calls, i) && forall j :: i < j < |calls| ==> !calls[j].SetTenantID?
    ensures AfterAll(NEW, calls).tenant == Some(calls[i].id)
  {
    var n := |calls| - 1;
    if i < n {
      SetsTenantSnoc(calls, i);
      TenantIsLastSet(calls[..n], i);
    }
  }

  /** The permissions are marked cleared iff a Clear followed their last Reset; a Set does not unmark them. */
  lemma {:induction false} PermissionsClearedFollowsCalls(calls: seq<Call>)
    ensures Permissions in AfterAll(NEW, calls).cleared <==> exists i :: ClearsPermissions(calls, i)
  {
    if calls != [] {
      hide ClearsPermissions, AfterAll;
      var n := |calls| - 1;
      PermissionsClearedFollowsCalls(calls[..n]);
      LastCall(calls);
      var o := calls[n];
      forall i
        ensures ClearsPermissions(calls, i) <==>
          if i == n then o == ClearPermissions else ClearsPermissions(calls[..n], i) && o != ResetPermissions
      {
        ClearsPermissionsSnoc(calls, i);
      }
      assert ClearsPermissions(calls, n) <==> o == ClearPermissions;
    }
  }

  /** Call i clears the permissions, and no later one resets them. */
  predicate ClearsPermissions(calls: seq<Call>, i: int) {
    0 <= i < |calls| && calls[i] == ClearPermissions && ResetPermissions !in calls[i..]
  }

  lemma ClearsPermissionsSnoc(calls: seq<Call>, i: int)
    requires calls != []
    ensures var n := |calls| - 1;
      ClearsPermissions(calls, i) <==>
        if i == n then calls[n] == ClearPermissions
        else ClearsPermissions(calls[..n], i) && calls[n] != ResetPermissions
  {
    var n := |calls| - 1;
    if 0 <= i < n {
      assert calls[i..] == calls[..n][i..] + [calls[n]];
    } else if i == n {
      assert calls[n..] == [calls[n]];
    }
  }

  /** Call i sets the tenant, and no later one resets the field or the edge. */
  predicate SetsTenant(calls: seq<Call>, i: int) {
    0 <= i < |calls| && calls[i].SetTenantID? && ResetTenantID !in calls[i..] && ResetTenant !in calls[i..]
  }

  lemma SetsTenantSnoc(calls: seq<Call>, i: int)
    requires calls != []
    ensures var n := |calls| - 1;
      SetsTenant(calls, i) <==>
        if i == n then calls[n].SetTenantID?
        else SetsTenant(calls[..n], i) && calls[n] != ResetTenantID && calls[n] != ResetTenant
  {
    var n := |calls| - 1;
    if 0 <= i < n {
      assert calls[i..] == calls[..n][i..] + [calls[n]];
    } else if i == n {
      assert calls[n..] == [calls[n]];
    }
  }

  /** After any calls the update check refuses iff a ClearTenant came after the last ResetTenant and a
      SetTenantID after the last reset of the field or the edge: a cleared tenant with no other one set passes. */
  method CheckAfter(calls: seq<Call>) returns (ok: bool)
    ensures !ok <==>
      && (exists i :: 0 <= i < |calls| && calls[i] == ClearTenant && ResetTenant !in calls[i..])
      && (exists i :: SetsTenant(calls, i))
  {
    var m := new PluginInstallMutation();
    Perform(m, calls);
    ok := m.Check();
    TenantClearedFollowsCalls(calls);
    TenantFollowsCalls(calls);
  }

  /** The list of cleared fields is exactly the set of fields marked cleared iff the tenant edge was never
      cleared. */
  method ReportedCleared(calls: seq<Call>) returns (fields: seq<Col>, marked: set<Col>)
    ensures (set c | c in fields) == marked <==> ClearTenant !in calls
    ensures (set c | c in fields) == marked - {TenantID}
  {
    var m := new PluginInstallMutation();
    Perform(m, calls);
    fields := m.ClearedFields();
    marked := m.clearedFields;
    TenantStaysCleared(calls);
  }

  method Perform(m: PluginInstallMutation, calls: seq<Call>)
    modifies m
    ensures m.Contents() == AfterAll(old(m.Contents()), calls)
  {
    for i := 0 to |calls|
      invariant m.Contents() == AfterAll(old(m.Contents()), calls[..i])
    {
      assert calls[..i+1][..i] == calls[..i];
      match calls[i]
      case SetPermissions(s) => m.SetPermissions(s);
      case AppendPermissions(s) => m.AppendPermissions(s);
      case ClearPermissions => m.ClearPermissions();
      case ResetPermissions => m.ResetPermissions();
      case SetTenantID(id) => m.SetTenantID(id);
      case ResetTenantID => m.ResetTenantID();
      case ClearTenant => m.ClearTenant();
      case ResetTenant => m.ResetTenant();
    }
    assert calls[..|calls|] == calls;
  }
}
