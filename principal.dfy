/** The authenticated principal built from a stored user. */
module Principals {
  import opened Common
  import opened Entities

  /** What the security layer knows about a signed-in user. */
  datatype Principal = Principal(
    id: UserId,
    firstName: string,
    lastName: string,
    email: string,
    password: Option<string>,
    authorities: seq<string>)
  {
    /** The login name is the email address. */
    function Username(): string
    {
      email
    }

    predicate IsAccountNonExpired()
    {
      true
    }

    predicate IsAccountNonLocked()
    {
      true
    }

    predicate IsCredentialsNonExpired()
    {
      true
    }

    predicate IsEnabled()
    {
      true
    }
  }

  /** `UserRole.name()`. */
  function RoleName(role: UserRole): (name: string)
    ensures |name| > 0
  {
    match role
    case CUSTOMER => "CUSTOMER"
    case ADMIN => "ADMIN"
    case MANAGER => "MANAGER"
  }

  /** `UserPrincipal.create`: identity fields copied, one authority `"ROLE_" + role`,
      and every account-status flag set. */
  function Create(u: User): (p: Principal)
    ensures p.id == u.id && p.firstName == u.firstName && p.lastName == u.lastName
    ensures p.email == u.email && p.password == u.password && p.Username() == u.email
    ensures |p.authorities| == 1 && |p.authorities[0]| > 5 && p.authorities[0][..5] == "ROLE_"
    ensures p.IsAccountNonExpired() && p.IsAccountNonLocked() && p.IsCredentialsNonExpired() && p.IsEnabled()
  {
    var authority := "ROLE_" + RoleName(u.role);
    assert authority[..5] == "ROLE_";
    Principal(u.id, u.firstName, u.lastName, u.email, u.password, [authority])
  }

  /** Reads the role back from an authority string. */
  function RoleOfAuthority(authority: string): Option<UserRole>
  {
    if authority == "ROLE_CUSTOMER" then Some(CUSTOMER)
    else if authority == "ROLE_ADMIN" then Some(ADMIN)
    else if authority == "ROLE_MANAGER" then Some(MANAGER)
    else None
  }

  /** The single authority of a principal names exactly the user's role. */
  lemma AuthorityNamesRole(u: User)
    ensures RoleOfAuthority(Create(u).authorities[0]) == Some(u.role)
  {
  }

  /** Whatever principal is built, its login name is its email and every status flag holds. */
  lemma PrincipalFlags(p: Principal)
    ensures p.Username() == p.email
    ensures p.IsAccountNonExpired() && p.IsAccountNonLocked() && p.IsCredentialsNonExpired() && p.IsEnabled()
  {
  }
}
