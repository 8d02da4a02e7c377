/** The users and agents tables, and the Principal built from a row of either. */
module Accounts {
  import opened Base
  import opened TokenCache

  datatype UserRow = UserRow(displayName: Option<string>, isAdmin: bool)

  datatype OwnerType = UserOwned | ServiceOwned

  datatype AgentInfo = AgentInfo(ownerType: OwnerType, ownerId: string, displayName: string)

  function UserPrincipal(id: string, row: UserRow): Principal {
    Principal(id, User, row.displayName, row.isAdmin, None)
  }

  /** Agents are never admins; only a user-owned one carries its owner's id. */
  function AgentPrincipal(id: string, info: AgentInfo): Principal {
    Principal(id, Agent, Some(info.displayName), false,
              if info.ownerType.UserOwned? then Some(info.ownerId) else None)
  }
}
