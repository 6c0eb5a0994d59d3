/**
 * The User document (models/user.model.js): the schema's setters and required
 * fields, the pre-save password hook, the password check and the claims the
 * two tokens carry.
 *
 * bcrypt is a foreign library: a stored password is `Hashed(p)` for the text
 * `p` it was made from, and `bcrypt.compare(c, stored)` holds exactly when
 * `stored == Hashed(c)`.  A signed token is `Token(serial, claims)`, with the
 * serial standing for whatever makes two signatures differ.
 */
module UserModel {
  import opened Wrappers
  import opened ObjectIds
  import opened Text

  datatype Password = Plain(text: string) | Hashed(source: string)

  /** The payloads `generateAccessToken` and `generateRefreshToken` sign. */
  datatype Claims =
    | AccessClaims(id: Id, email: string, username: string, fullname: string)
    | RefreshClaims(id: Id)

  datatype Token = Token(serial: nat, claims: Claims)

  datatype User = User(
    id: Id,
    username: string,
    fullName: string,
    email: string,
    password: Password,
    avatar: string,
    coverImage: string,
    watchHistory: seq<Id>,
    refreshToken: Option<Token>)

  /** The values `User.create` is given; `None` is an absent (undefined or null) value. */
  datatype UserFields = UserFields(
    username: string,
    fullName: string,
    email: string,
    password: string,
    avatar: Option<string>,
    coverImage: string)

  /** A `required: true` String path: present and not empty. */
  predicate Present(v: Option<string>) {
    v.Some? && v.value != ""
  }

  /**
   * The pre-save hook: when the password path was modified it is replaced by
   * its hash; otherwise the document is saved as it is.
   */
  function PreSave(u: User, passwordModified: bool): (r: User)
    requires passwordModified ==> u.password.Plain?
    ensures passwordModified ==> r.password == Hashed(u.password.text)
    ensures !passwordModified ==> r == u
    ensures r.(password := u.password) == u
  {
    if passwordModified then u.(password := Hashed(u.password.text)) else u
  }

  /**
   * `User.create(fields)`: the setters run (`username`, `email`: lower case and
   * trimmed; `fullName`: trimmed), then every path is validated as required,
   * then the pre-save hook hashes the new password.  `None` is the validation
   * error.
   */
  function NewUserDoc(id: Id, f: UserFields): (r: Option<User>)
    ensures r.Some? <==>
      Normalise(f.username) != "" && Trim(f.fullName) != "" && Normalise(f.email) != ""
      && f.password != "" && Present(f.avatar) && f.coverImage != ""
    ensures r.Some? ==> (r.value.id == id
      && r.value.username == Normalise(f.username)
      && r.value.email == Normalise(f.email)
      && r.value.fullName == Trim(f.fullName)
      && r.value.password == Hashed(f.password)
      && r.value.avatar == f.avatar.value && r.value.coverImage == f.coverImage
      && r.value.watchHistory == [] && r.value.refreshToken == None)
  {
    var doc := User(id, Normalise(f.username), Trim(f.fullName), Normalise(f.email),
                    Plain(f.password), f.avatar.GetOr(""), f.coverImage, [], None);
    if doc.username != "" && doc.fullName != "" && doc.email != "" && f.password != ""
       && Present(f.avatar) && doc.coverImage != ""
    then Some(PreSave(doc, true))
    else None
  }

  /**
   * A created user's username and email are as the setters leave them: running
   * the setters on them again changes nothing.
   */
  lemma NewUserDocNormalised(id: Id, f: UserFields)
    requires NewUserDoc(id, f).Some?
    ensures IsNormalised(NewUserDoc(id, f).value.username) && IsNormalised(NewUserDoc(id, f).value.email)
    ensures IsLower(NewUserDoc(id, f).value.username) && IsLower(NewUserDoc(id, f).value.email)
  {
    NormaliseIdempotent(f.username);
    NormaliseIdempotent(f.email);
  }

  /** `user.isPasswordCorrect(candidate)`, i.e. `bcrypt.compare(candidate, user.password)`. */
  predicate IsPasswordCorrect(u: User, candidate: string) {
    u.password == Hashed(candidate)
  }

  /** `generateAccessToken`'s payload: `_id`, `email`, `username` and `fullname`. */
  function AccessClaimsOf(u: User): (c: Claims)
    ensures c.AccessClaims? && c.id == u.id
    ensures c.email == u.email && c.username == u.username && c.fullname == u.fullName
  {
    AccessClaims(u.id, u.email, u.username, u.fullName)
  }

  /** `generateRefreshToken`'s payload: the `_id` alone. */
  function RefreshClaimsOf(u: User): (c: Claims)
    ensures c.RefreshClaims? && c.id == u.id
  {
    RefreshClaims(u.id)
  }
}
