/**
 * The field checks of the registration and login pages, the same in both
 * application versions. The password hash, the database and the page's
 * status label are collaborators passed in as functions.
 */
module Accounts {
  import opened Primitives

  /** How `register` ends; the wording of the status label differs between the versions. */
  datatype Registration =
    | AllFieldsRequired
    | InvalidEmailFormat
    | Registered(userId: nat)
    | Duplicate

  /**
   * `register`. `hash` stands for `bcrypt.hash`, `insertUser(username,
   * hashed, email)` for `Database.insert_user`, which yields the new id or
   * nothing. An id of 0 would be falsy in the page's `if user_id:` and
   * counts as failure.
   */
  function Register(username: string, email: string, password: string,
                    hash: string -> string,
                    insertUser: (string, string, string) -> Option<nat>): (r: Registration)
    ensures r == AllFieldsRequired <==> AllSpace(username) || AllSpace(email) || password == ""
    ensures r == InvalidEmailFormat <==>
      !AllSpace(username) && !AllSpace(email) && password != "" && ('@' !in email || '.' !in email)
    ensures r.Registered? || r == Duplicate ==>
      '@' in Strip(email) && '.' in Strip(email) && Strip(username) != [] && Strip(email) != []
    ensures r.Registered? <==> (r != AllFieldsRequired && r != InvalidEmailFormat
      && insertUser(Strip(username), hash(password), Strip(email)).Some?
      && insertUser(Strip(username), hash(password), Strip(email)).value != 0)
    ensures r.Registered? ==> r.userId != 0
    ensures r.Registered? ==> Some(r.userId) == insertUser(Strip(username), hash(password), Strip(email))
  {
    var name := Strip(username);
    var mail := Strip(email);
    StripKeeps(email, '@');
    StripKeeps(email, '.');
    if name == [] || mail == [] || password == [] then AllFieldsRequired
    else if '@' !in mail || '.' !in mail then InvalidEmailFormat
    else
      var inserted := insertUser(name, hash(password), mail);
      if inserted.Some? && inserted.value != 0 then Registered(inserted.value) else Duplicate
  }

  /** A row returned by `Database.get_user_by_username`. */
  datatype User = User(userId: nat, username: string, passwordHash: string, email: string)

  datatype Login =
    | PleaseFillAllFields
    | InvalidCredentials
    | LoggedIn(user: User)
  {
    /** The error-label text the page shows; a successful login shows none and opens the dashboard. */
    function Message(): (m: string)
      ensures m == "Please fill all fields" <==> this == PleaseFillAllFields
      ensures m == "Invalid credentials" <==> this == InvalidCredentials
      ensures m == "" <==> this.LoggedIn?
    {
      match this
      case PleaseFillAllFields => "Please fill all fields"
      case InvalidCredentials => "Invalid credentials"
      case LoggedIn(_) => ""
    }
  }

  /**
   * `login`. `findUser` stands for `Database.get_user_by_username` and
   * `verify(password, hash)` for `bcrypt.verify`.
   */
  function LogIn(username: string, password: string,
                 findUser: string -> Option<User>,
                 verify: (string, string) -> bool): (r: Login)
    ensures r == PleaseFillAllFields <==> AllSpace(username) || password == ""
    ensures r.LoggedIn? <==> (!AllSpace(username) && password != ""
      && findUser(Strip(username)).Some? && verify(password, findUser(Strip(username)).value.passwordHash))
    ensures r.LoggedIn? ==> Some(r.user) == findUser(Strip(username))
  {
    var name := Strip(username);
    if name == [] || password == [] then PleaseFillAllFields
    else
      match findUser(name)
      case Some(user) => if verify(password, user.passwordHash) then LoggedIn(user) else InvalidCredentials
      case None => InvalidCredentials
  }
}
