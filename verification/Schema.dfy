/** Values shared by every module: optional values, outcomes of calls that may fail, the columns and edges
    of the generated entities, and the cells of a database row. */
module Schema {

  datatype Option<+T> = None | Some(value: T)

  /** The outcome of a call that the source returns as (value, error). */
  datatype Result<+T, +E> = Ok(value: T) | Err(error: E)

  type Id = string

  datatype Entity = Tenant | TenantUser | User | PluginInstall | Branch | Role | RolePermission

  /** Column names; Other stands for any name that no entity declares. */
  datatype Col =
    | ID | TenantID | UserID | RoleID | BranchID | Slug | Name | Plan | Status | SchemaName
    | Email | PasswordHash | GoogleSub | IsPlatformAdmin | PluginName | InstalledAt | Permissions
    | Permission | IsSystem | CreatedAt | TokenHash | DeviceName | LastUsedAt | RevokedAt | Other(name: string)

  /** A database cell. */
  datatype Value = Null | Str(s: string) | Time(t: int) | Bool(b: bool) | Json(items: seq<string>)

  type Row = map<Col, Value>

  function Columns(e: Entity): seq<Col> {
    match e
    case Tenant => [ID, Slug, Name, Plan, Status, SchemaName]
    case TenantUser => [ID, UserID, TenantID, BranchID, RoleID, Status, CreatedAt]
    case User => [ID, Email, PasswordHash, GoogleSub, IsPlatformAdmin, CreatedAt]
    case PluginInstall => [ID, TenantID, PluginName, InstalledAt, Permissions]
    case Branch => [ID, TenantID, Slug, Name, Status, CreatedAt]
    case Role => [ID, TenantID, Slug, Name, IsSystem, CreatedAt]
    case RolePermission => [ID, RoleID, Permission]
  }

  /** An edge of an entity. For a one-to-many edge `fk` is a column of the target, for a many-to-one edge it
      is a column of the entity itself. */
  datatype Edge = Edge(many: bool, target: Entity, fk: Col)

  function EdgesOf(e: Entity): seq<Edge> {
    match e
    case Tenant => [Edge(true, TenantUser, TenantID), Edge(true, PluginInstall, TenantID), Edge(true, Branch, TenantID)]
    case TenantUser => [Edge(false, User, UserID), Edge(false, Tenant, TenantID)]
    case User => [Edge(true, TenantUser, UserID)]
    case PluginInstall => [Edge(false, Tenant, TenantID)]
    case Branch => [Edge(false, Tenant, TenantID)]
    case Role => [Edge(true, RolePermission, RoleID)]
    case RolePermission => [Edge(false, Role, RoleID)]
  }

  /** The string held under a column; an absent or NULL cell reads as the empty string, which is what a
      generated struct field holds when nothing was assigned to it. */
  function StrOf(r: Row, c: Col): Id {
    if c in r && r[c].Str? then r[c].s else ""
  }
}
