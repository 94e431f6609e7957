/**
 * The dashboard layout (`DashboardLayout`): logging out, the admin test on
 * the role, and the navigation links that test selects.
 */
module DashboardLayout {
  import opened Wrappers
  import opened Storage
  import opened AuthService
  import opened AuthContext

  /** The role that grants the administrative pages. */
  const AdminRole := "ROLE_ADMIN"

  /**
   * `handleLogout`: removes the token and the role from storage and sets
   * both in-memory values to null. The redirect to the home page is routing.
   */
  method HandleLogout(storage: LocalStorage, session: Session)
    requires session.Valid()
    modifies storage, session
    ensures session.Valid()
    ensures storage.items == old(storage.items) - {TokenKey, RoleKey}
    ensures session.token == None && session.role == None
  {
    storage.RemoveItem(TokenKey);
    storage.RemoveItem(RoleKey);
    session.SetToken(None);
    session.SetRole(None);
  }

  /** Once the token and role keys are gone, no header is sent and every other key remains. */
  lemma LoggedOutStorage(items: map<string, string>)
    ensures AuthHeader(items - {TokenKey, RoleKey}) == map[]
    ensures StoredValue(items - {TokenKey, RoleKey}, RoleKey) == None
    ensures forall k :: k in items && k != TokenKey && k != RoleKey ==>
      k in items - {TokenKey, RoleKey} && (items - {TokenKey, RoleKey})[k] == items[k]
  {
    AuthHeaderRoundTrip(items - {TokenKey, RoleKey});
  }

  /** `role === 'ROLE_ADMIN'`; a null role is not admin. */
  predicate IsAdmin(role: Option<string>) {
    role == Some(AdminRole)
  }

  /** A link of the side navigation. */
  datatype NavLink = NavLink(href: string, text: string)

  const DashboardLink := NavLink("/dashboard", "Dashboard")
  const UsersLink := NavLink("/dashboard/users", "Usuários")
  const ResidentsLink := NavLink("/dashboard/residents", "Residências")
  const ShopOwnersLink := NavLink("/dashboard/shopOwners", "Lojas")
  const NotificationsLink := NavLink("/dashboard/notifications", "Notificações")
  const ExpensesLink := NavLink("/dashboard/expenses", "Despesas")

  /** The links of the side navigation, in order, for the given role. */
  function NavLinks(role: Option<string>): seq<NavLink>
  {
    [DashboardLink]
    + (if IsAdmin(role) then [UsersLink, ResidentsLink, ShopOwnersLink] else [])
    + [NotificationsLink, ExpensesLink]
  }

  /**
   * The users, residents and shop-owner links are shown exactly to an admin,
   * between the dashboard link, always first, and the notifications and
   * expenses links, always last.
   */
  lemma NavLinksByRole(role: Option<string>)
    ensures UsersLink in NavLinks(role) <==> IsAdmin(role)
    ensures ResidentsLink in NavLinks(role) <==> IsAdmin(role)
    ensures ShopOwnersLink in NavLinks(role) <==> IsAdmin(role)
    ensures |NavLinks(role)| == if IsAdmin(role) then 6 else 3
    ensures NavLinks(role)[0] == DashboardLink
    ensures NavLinks(role)[|NavLinks(role)| - 2..] == [NotificationsLink, ExpensesLink]
  {
  }

  /** Whatever role was held, after logout the navigation is the non-admin one. */
  method LogoutHidesAdminLinks(storage: LocalStorage, session: Session) returns (links: seq<NavLink>)
    requires session.Valid()
    modifies storage, session
    ensures links == [DashboardLink, NotificationsLink, ExpensesLink]
  {
    HandleLogout(storage, session);
    links := NavLinks(session.role);
  }
}
