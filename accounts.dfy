/**
 * backend/apps/accounts: the platform user (models.py) and the checks its
 * serializers make on roles, logins and password changes (serializers.py).
 *
 * Password hashing and `authenticate` are library code: they enter as
 * function parameters. Django REST framework's built-in field errors are
 * named by their error codes (`"blank"`, `"min_length"`), not by their
 * translated texts.
 */
module Accounts {
  import opened Common

  /** The columns of a user that the backend reads. */
  datatype User = User(
    username: string,
    email: string,
    firstName: string,
    lastName: string,
    role: Role,
    isActive: bool,
    isSuperuser: bool)

  /** The `role` column's default. */
  const DefaultRole := Desenvolvedor

  /** A user created with only the required columns: every other column takes its default. */
  function NewUser(username: string, email: string): (u: User)
    ensures u.role == Desenvolvedor && u.isActive && !u.isSuperuser
    ensures u.username == username && u.email == email && u.firstName == "" && u.lastName == ""
  {
    User(username, email, "", "", DefaultRole, true, false)
  }

  // ------------------------------------------------------------------
  // The is_<role> properties
  // ------------------------------------------------------------------

  predicate IsAdmin(u: User) { u.role == Admin }
  predicate IsSupervisor(u: User) { u.role == Supervisor }
  predicate IsGerente(u: User) { u.role == Gerente }
  predicate IsDesenvolvedor(u: User) { u.role == Desenvolvedor }
  predicate IsDados(u: User) { u.role == Dados }
  predicate IsProcessos(u: User) { u.role == Processos }

  /** How many of the six role properties hold. */
  function RolesHeld(u: User): nat
  {
    (if IsAdmin(u) then 1 else 0) + (if IsSupervisor(u) then 1 else 0)
    + (if IsGerente(u) then 1 else 0) + (if IsDesenvolvedor(u) then 1 else 0)
    + (if IsDados(u) then 1 else 0) + (if IsProcessos(u) then 1 else 0)
  }

  /** Every user holds exactly one of the six role properties. */
  lemma ExactlyOneRole(u: User)
    ensures RolesHeld(u) == 1
  {
    match u.role
    case Admin =>
    case Supervisor =>
    case Gerente =>
    case Desenvolvedor =>
    case Dados =>
    case Processos =>
  }

  // ------------------------------------------------------------------
  // User.save
  // ------------------------------------------------------------------

  /** The row `save` writes: a superuser is stored as admin. */
  function Saved(u: User): (r: User)
    ensures r.isSuperuser ==> r.role == Admin
    ensures !u.isSuperuser ==> r == u
    ensures r.(role := u.role) == u
  {
    if u.isSuperuser then u.(role := Admin) else u
  }

  /** Saving twice stores what saving once stores. */
  lemma SavedIdempotent(u: User)
    ensures Saved(Saved(u)) == Saved(u)
  {
  }

  /** A user object whose `save` overwrites its own role before persisting. */
  class UserAccount {
    var user: User
    var stored: Option<User>

    constructor(u: User)
      ensures user == u && stored.None?
    {
      user := u;
      stored := None;
    }

    /** `User.save`: coerce the role of a superuser, then persist the object. */
    method Save()
      modifies this
      ensures user == Saved(old(user))
      ensures stored == Some(user)
    {
      if user.isSuperuser {
        user := user.(role := Admin);
      }
      stored := Some(user);
    }
  }

  // ------------------------------------------------------------------
  // format_user_name
  // ------------------------------------------------------------------

  /**
   * `format_user_name`: "first last" when both names are set, else the one
   * that is set, else the username; `None` for no user.
   */
  function FormatUserName(u: Option<User>): (r: Option<string>)
    ensures r.None? <==> u.None?
    ensures u.Some? && u.value.firstName != "" && u.value.lastName != "" ==>
              r == Some(u.value.firstName + " " + u.value.lastName)
    ensures u.Some? && u.value.firstName != "" && u.value.lastName == "" ==> r == Some(u.value.firstName)
    ensures u.Some? && u.value.firstName == "" && u.value.lastName != "" ==> r == Some(u.value.lastName)
    ensures u.Some? && u.value.firstName == "" && u.value.lastName == "" ==> r == Some(u.value.username)
  {
    if u.None? then None
    else
      var v := u.value;
      if v.firstName != "" && v.lastName != "" then Some(v.firstName + " " + v.lastName)
      else if v.firstName != "" then Some(v.firstName)
      else if v.lastName != "" then Some(v.lastName)
      else Some(v.username)
  }

  /** A user with a username always gets a non-empty display name, made of the first name when there is one. */
  lemma FormatUserNameNonEmpty(u: User)
    requires u.username != ""
    ensures FormatUserName(Some(u)).Some? && FormatUserName(Some(u)).value != ""
    ensures u.firstName != "" ==> StartsWith(FormatUserName(Some(u)).value, u.firstName)
  {
    if u.firstName != "" && u.lastName != "" {
      assert (u.firstName + " " + u.lastName)[..|u.firstName|] == u.firstName;
    }
  }

  // ------------------------------------------------------------------
  // UserSerializer.validate_role
  // ------------------------------------------------------------------

  /** The roles the third guard of `validate_role` names. */
  predicate IsStaffRole(r: Role)
  {
    r == Gerente || r == Desenvolvedor || r == Dados || r == Processos
  }

  /**
   * `validate_role`. `requester` is the role of the request's user, `None`
   * when the serializer was built without a request; `current` is the role
   * of the user being edited, `None` when one is being created. The guards
   * run in the source's order, so the first that fails names the error.
   */
  function ValidateRole(requester: Option<Role>, current: Option<Role>, value: Role): (r: Validated<Role>)
    ensures r.Accepted? ==> r.value == value
  {
    if requester.None? then Accepted(value)
    else if value == Supervisor && requester.value != Admin then
      Rejected("Apenas administradores podem definir usuários como supervisores.")
    else if current == Some(Supervisor) && value != Supervisor && requester.value != Admin then
      Rejected("Apenas administradores podem alterar o cargo de supervisores.")
    else if IsStaffRole(value) && !IsSupervisorOrAdmin(requester.value) then
      Rejected("Apenas administradores e supervisores podem alterar cargos.")
    else Accepted(value)
  }

  /**
   * The rule the guards add up to: making or unmaking a supervisor takes an
   * admin, and any of the four staff roles takes an admin or a supervisor.
   */
  predicate RoleChangeAllowed(actor: Role, current: Option<Role>, value: Role)
  {
    (value == Supervisor ==> actor == Admin)
    && (current == Some(Supervisor) ==> actor == Admin)
    && (IsStaffRole(value) ==> IsSupervisorOrAdmin(actor))
  }

  /** Without a request every value passes; with one, exactly the allowed changes pass. */
  lemma ValidateRoleMeaning(requester: Option<Role>, current: Option<Role>, value: Role)
    ensures requester.None? ==> ValidateRole(requester, current, value) == Accepted(value)
    ensures requester.Some? ==>
              (ValidateRole(requester, current, value).Accepted? <==> RoleChangeAllowed(requester.value, current, value))
  {
  }

  /**
   * `admin` is in none of the guarded lists: any requester may give the
   * role to a user who is not a supervisor.
   */
  lemma AdminRoleUnguarded(actor: Role, current: Option<Role>)
    requires current != Some(Supervisor)
    ensures ValidateRole(Some(actor), current, Admin) == Accepted(Admin)
  {
    assert !IsStaffRole(Admin);
  }

  /** A developer editing a developer account may promote it to admin. */
  lemma DeveloperPromotesToAdmin()
    ensures ValidateRole(Some(Desenvolvedor), Some(Desenvolvedor), Admin).Accepted?
  {
  }

  /** `validate_role` with the missing guard: only an admin may grant the admin role. */
  function ValidateRoleGuarded(requester: Option<Role>, current: Option<Role>, value: Role): (r: Validated<Role>)
    ensures r.Accepted? ==> r.value == value
  {
    if requester.Some? && value == Admin && requester.value != Admin then
      Rejected("Apenas administradores podem definir usuários como administradores.")
    else ValidateRole(requester, current, value)
  }

  /**
   * With the guard, a request is accepted exactly when the change is allowed
   * and does not grant `admin` without being made by an admin; so only an
   * admin can hand out either of the two privileged roles.
   */
  lemma ValidateRoleGuardedMeaning(requester: Option<Role>, current: Option<Role>, value: Role)
    requires requester.Some?
    ensures ValidateRoleGuarded(requester, current, value).Accepted? <==>
              RoleChangeAllowed(requester.value, current, value) && (value == Admin ==> requester.value == Admin)
    ensures ValidateRoleGuarded(requester, current, value).Accepted? && IsSupervisorOrAdmin(value) ==>
              requester.value == Admin
  {
    ValidateRoleMeaning(requester, current, value);
  }

  // ------------------------------------------------------------------
  // LoginSerializer.validate
  // ------------------------------------------------------------------

  /**
   * `LoginSerializer.validate`. `authenticate` is Django's authentication
   * backend applied to the pair; the accepted value is the user it found.
   */
  function ValidateLogin(username: string, password: string, authenticate: (string, string) -> Option<User>)
    : (r: Validated<User>)
    ensures r.Accepted? <==>
              username != "" && password != "" && authenticate(username, password).Some?
              && authenticate(username, password).value.isActive
    ensures r.Accepted? ==> r.value == authenticate(username, password).value
    ensures username == "" || password == "" ==> r == Rejected("Username e senha são obrigatórios.")
  {
    if username != "" && password != "" then
      var user := authenticate(username, password);
      if user.None? then Rejected("Credenciais inválidas.")
      else if !user.value.isActive then Rejected("Usuário desativado.")
      else Accepted(user.value)
    else Rejected("Username e senha são obrigatórios.")
  }

  // ------------------------------------------------------------------
  // ChangePasswordSerializer
  // ------------------------------------------------------------------

  const MinPasswordLength := 8

  /**
   * A `CharField` as REST framework runs it: the input is stripped, a
   * blank value fails with `blank`, and a `min_length` is checked on the
   * stripped value.
   */
  function CharField(s: string, minLength: nat): (r: Validated<string>)
    ensures r.Accepted? <==> PyStrip(s) != "" && |PyStrip(s)| >= minLength
    ensures r.Accepted? ==> r.value == PyStrip(s)
    ensures PyStrip(s) == "" ==> r == Rejected("blank")
  {
    var v := PyStrip(s);
    if v == "" then Rejected("blank")
    else if |v| < minLength then Rejected("min_length")
    else Accepted(v)
  }

  /**
   * `validate_current_password`: `checkPassword` is the requesting user's
   * password check, `None` when there is no request.
   */
  function ValidateCurrentPassword(value: string, checkPassword: Option<string -> bool>): (r: Validated<string>)
    ensures r.Accepted? <==> checkPassword.Some? && checkPassword.value(value)
    ensures r.Accepted? ==> r.value == value
  {
    if checkPassword.None? || !checkPassword.value(value) then Rejected("Senha atual incorreta.")
    else Accepted(value)
  }

  /**
   * The whole `ChangePasswordSerializer`: both fields pass their own
   * checks, and the (stripped) current password is the requester's.
   * The result is the pair of stripped passwords.
   */
  function ChangePassword(current: string, newPassword: string, checkPassword: Option<string -> bool>)
    : (r: Option<(string, string)>)
    ensures r.Some? <==>
              PyStrip(current) != "" && checkPassword.Some? && checkPassword.value(PyStrip(current))
              && |PyStrip(newPassword)| >= MinPasswordLength
    ensures r.Some? ==> r.value == (PyStrip(current), PyStrip(newPassword))
  {
    var c := CharField(current, 0);
    var n := CharField(newPassword, MinPasswordLength);
    if c.Rejected? || n.Rejected? then None
    else
      var v := ValidateCurrentPassword(c.value, checkPassword);
      if v.Rejected? then None else Some((v.value, n.value))
  }
}
