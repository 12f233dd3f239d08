/** The `users` schema (backend/models/user.js). No field is required,
    so each may be absent; the password is stored in plain text. */
module UserModel {
  import opened Wrappers

  datatype User = User(
    name: Option<string>, age: Option<int>, gender: Option<string>,
    phone: Option<string>, password: Option<string>)

  /** The user as the API returns it: the same fields without the password. */
  datatype PublicUser = PublicUser(
    name: Option<string>, age: Option<int>, gender: Option<string>, phone: Option<string>)

  function Public(u: User): PublicUser {
    PublicUser(u.name, u.age, u.gender, u.phone)
  }
}
