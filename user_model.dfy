/**
  The user record shared by the authorisation gate (which reads a user's type
  from the directory) and the signup service (which creates users).
 */
module UserModel {

  /** The kinds of user the application distinguishes. */
  datatype UserType = BUYER | REALTOR | ADMIN

  /**
    A row of the user table as the services see it. Columns the database
    fills in itself (the id and timestamps) are not part of this model.
   */
  datatype User = User(
    email: string,
    name: string,
    phone: string,
    password: string,
    userType: UserType)
}
