/**
 * The user side of the support desk: registration of accounts into the
 * identity store, and lookup by username.
 *
 * The identity store is a map from the store's internal key to the user
 * record. The password encoder is an arbitrary function handed in by the
 * caller; its internals are not modelled.
 */
module Users {
  import opened Wrappers

  /** The internal key under which the identity store keeps a user. */
  type UserKey = nat

  datatype Role = Role(roleName: string)

  datatype User = User(
    username: string,
    password: string,
    email: string,
    fullName: string,
    phoneNumber: string,
    age: int,
    gender: string,
    employeeCode: string,
    department: string,
    roles: set<Role>)

  /** What a caller submits to register an account. */
  datatype Registration = Registration(
    username: string,
    password: string,
    email: string,
    fullName: string,
    phoneNumber: string,
    age: int,
    gender: string,
    employeeCode: string,
    department: string)

  datatype RegistrationError = UsernameTaken | EmailInUse
  {
    /** The text of the exception thrown for this error. */
    function Message(): string
    {
      match this
      case UsernameTaken => "Username is already taken!"
      case EmailInUse => "Email is already in use!"
    }
  }

  datatype LookupError = UserNotFound(username: string)
  {
    function Message(): string
    {
      "User not found with username: " + username
    }
  }

  /** The value given to staff-only fields of a non-staff account. */
  const NotApplicable: string := "NA"

  // ---------------------------------------------------------------------
  // Substring test (Java's String.contains)
  // ---------------------------------------------------------------------

  /** `sub` occurs in `s` starting at position `i`. */
  ghost predicate OccursAt(s: string, sub: string, i: nat)
  {
    i + |sub| <= |s| && s[i..i + |sub|] == sub
  }

  /** Java's `s.contains(sub)`: `sub` occurs somewhere in `s` as a contiguous run. */
  function Contains(s: string, sub: string): (b: bool)
    ensures b <==> exists i: nat :: OccursAt(s, sub, i)
    decreases |s|
  {
    if |sub| > |s| then
      assert forall i: nat :: !OccursAt(s, sub, i);
      false
    else if s[..|sub|] == sub then
      assert OccursAt(s, sub, 0);
      true
    else
      var b := Contains(s[1..], sub);
      assert !OccursAt(s, sub, 0);
      assert forall i: nat :: OccursAt(s[1..], sub, i) <==> OccursAt(s, sub, i + 1) by {
        forall i: nat
          ensures OccursAt(s[1..], sub, i) <==> OccursAt(s, sub, i + 1)
        {
          if i + |sub| <= |s[1..]| {
            assert s[1..][i..i + |sub|] == s[i + 1..i + 1 + |sub|];
          }
        }
      }
      assert forall i: nat :: OccursAt(s, sub, i) ==> i > 0 && OccursAt(s[1..], sub, i - 1);
      b
  }

  /** The role string names a staff role: it mentions ROLE_EMPLOYEE or ROLE_ADMIN anywhere. */
  function IsStaffRole(role: string): (b: bool)
    ensures b <==>
      (exists i: nat :: OccursAt(role, "ROLE_EMPLOYEE", i)) || (exists i: nat :: OccursAt(role, "ROLE_ADMIN", i))
  {
    Contains(role, "ROLE_EMPLOYEE") || Contains(role, "ROLE_ADMIN")
  }

  /** The role test is a substring test: any role string mentioning a staff role name is staff. */
  lemma StaffRoleBySubstring(prefix: string, suffix: string)
    ensures IsStaffRole(prefix + "ROLE_EMPLOYEE" + suffix)
    ensures IsStaffRole(prefix + "ROLE_ADMIN" + suffix)
  {
    var e, a := prefix + "ROLE_EMPLOYEE" + suffix, prefix + "ROLE_ADMIN" + suffix;
    assert e[|prefix|..|prefix| + 13] == "ROLE_EMPLOYEE";
    assert OccursAt(e, "ROLE_EMPLOYEE", |prefix|);
    assert a[|prefix|..|prefix| + 10] == "ROLE_ADMIN";
    assert OccursAt(a, "ROLE_ADMIN", |prefix|);
  }

  /** The customer role is not a staff role. */
  lemma CustomerRoleIsNotStaff()
    ensures !IsStaffRole("ROLE_CUSTOMER")
  {
    var s := "ROLE_CUSTOMER";
    forall i: nat ensures !OccursAt(s, "ROLE_EMPLOYEE", i) && !OccursAt(s, "ROLE_ADMIN", i) {
      if i + 10 <= |s| {
        assert s[i + 5] != "ROLE_ADMIN"[5];
        assert s[i..i + 10][5] == s[i + 5];
      }
      if i + 13 <= |s| {
        assert s[i..i + 13][5] == s[i + 5];
      }
    }
  }

  // ---------------------------------------------------------------------
  // Identity store queries
  // ---------------------------------------------------------------------

  predicate UsernameExists(users: map<UserKey, User>, username: string)
  {
    exists k | k in users :: users[k].username == username
  }

  predicate EmailExists(users: map<UserKey, User>, email: string)
  {
    exists k | k in users :: users[k].email == email
  }

  /** The store's unique constraints: no two users share a username or an email. */
  ghost predicate Unique(users: map<UserKey, User>)
  {
    forall a, b :: a in users && b in users && a != b ==>
      users[a].username != users[b].username && users[a].email != users[b].email
  }

  /**
   * The uniqueness check run before any write: the username is checked
   * first, then the email.
   */
  function ValidateNewUser(users: map<UserKey, User>, reg: Registration): (r: Outcome<RegistrationError>)
    ensures r == Fail(UsernameTaken) <==> exists k :: k in users && users[k].username == reg.username
    ensures r == Fail(EmailInUse) <==>
      (forall k :: k in users ==> users[k].username != reg.username) &&
      (exists k :: k in users && users[k].email == reg.email)
    ensures r == Pass <==>
      forall k :: k in users ==> users[k].username != reg.username && users[k].email != reg.email
    ensures r.Fail? ==>
      (r.error.Message() == "Username is already taken!" <==>
         exists k :: k in users && users[k].username == reg.username)
  {
    if UsernameExists(users, reg.username) then Fail(UsernameTaken)
    else if EmailExists(users, reg.email) then Fail(EmailInUse)
    else Pass
  }

  /** The stored user with the given username, or a not-found error. */
  function FindByUsername(users: map<UserKey, User>, username: string): (r: Result<User, LookupError>)
    requires Unique(users)
    ensures r.Ok? <==> exists k :: k in users && users[k].username == username
    ensures r.Ok? ==> r.value in users.Values && r.value.username == username
    ensures r.Ok? ==> forall k :: k in users && users[k].username == username ==> users[k] == r.value
    ensures r.Err? ==> r.error == UserNotFound(username)
    ensures r.Err? ==> r.error.Message() == "User not found with username: " + username
  {
    if UsernameExists(users, username) then
      var k :| k in users && users[k].username == username;
      Ok(users[k])
    else
      Err(UserNotFound(username))
  }

  /**
   * Adding a user whose username and email are both fresh, under a fresh key,
   * keeps the store's unique constraints, and the new user is then what a
   * lookup of its username finds.
   */
  lemma AddFreshUser(users: map<UserKey, User>, key: UserKey, u: User)
    requires Unique(users) && key !in users
    requires !UsernameExists(users, u.username) && !EmailExists(users, u.email)
    ensures Unique(users[key := u])
    ensures FindByUsername(users[key := u], u.username) == Ok(u)
  {
    var users' := users[key := u];
    forall a, b | a in users' && b in users' && a != b
      ensures users'[a].username != users'[b].username && users'[a].email != users'[b].email
    {
      if a == key {
        assert b in users;
      } else if b == key {
        assert a in users;
      }
    }
    assert users'[key].username == u.username;
  }

  // ---------------------------------------------------------------------
  // Registration (state-changing)
  // ---------------------------------------------------------------------

  class UserService {
    /** The identity store. */
    var users: map<UserKey, User>

    ghost predicate Valid()
      reads this
    {
      Unique(users)
    }

    constructor (initial: map<UserKey, User>)
      requires Unique(initial)
      ensures Valid() && users == initial
    {
      users := initial;
    }

    /**
     * Registers an account with exactly one role. `key` is the internal key
     * the store assigns to the new row; `encode` is the password encoder.
     */
    method RegisterUser(reg: Registration, role: string, key: UserKey, encode: string -> string)
      returns (r: Result<User, RegistrationError>)
      requires Valid() && key !in users
      modifies this
      ensures Valid()
      ensures r.Ok? <==> ValidateNewUser(old(users), reg) == Pass
      ensures r.Err? ==> Fail(r.error) == ValidateNewUser(old(users), reg) && users == old(users)
      ensures r.Ok? ==> users == old(users)[key := r.value] && |users| == |old(users)| + 1
      ensures r.Ok? ==>
        && r.value.username == reg.username
        && r.value.password == encode(reg.password)
        && r.value.email == reg.email
        && r.value.fullName == reg.fullName
        && r.value.phoneNumber == reg.phoneNumber
        && r.value.age == reg.age
        && r.value.gender == reg.gender
      ensures r.Ok? && IsStaffRole(role) ==>
        r.value.employeeCode == reg.employeeCode && r.value.department == reg.department
      ensures r.Ok? && !IsStaffRole(role) ==>
        r.value.employeeCode == NotApplicable && r.value.department == NotApplicable
      ensures r.Ok? ==> r.value.roles == {Role(role)}
      ensures r.Ok? ==> UsernameExists(users, reg.username) && EmailExists(users, reg.email)
      ensures r.Ok? ==> FindByUsername(users, reg.username) == Ok(r.value)
    {
      var check := ValidateNewUser(users, reg);
      if check.Fail? {
        return Err(check.error);
      }
      var user := User(reg.username, encode(reg.password), reg.email, reg.fullName,
                       reg.phoneNumber, reg.age, reg.gender, "", "", {});
      if IsStaffRole(role) {
        user := user.(employeeCode := reg.employeeCode, department := reg.department);
      } else {
        user := user.(employeeCode := NotApplicable, department := NotApplicable);
      }
      user := user.(roles := {Role(role)});
      AddFreshUser(users, key, user);
      users := users[key := user];
      assert users[key] == user;
      r := Ok(user);
    }
  }
}
