/**
  `AuthService.signup`: creating a buyer account in the user table, refused
  with a conflict when the email is already registered.

  The table is the one object the operation changes; the password hash
  (bcrypt in the application) is a function given to the service.
 */
module AuthService {
  import opened UserModel
  import opened Wrappers

  /** The bcrypt cost factor signup hashes with. */
  const SaltRounds: nat := 10

  datatype SignupParams = SignupParams(email: string, password: string, name: string, phone: string)

  /** The error signup throws; the framework answers it with 409. */
  datatype SignupError = Conflict

  /** The first row with the given email, as a lookup by email finds it. */
  function FindByEmail(rows: seq<User>, email: string): (r: Option<User>)
    ensures r.Some? ==> r.value in rows && r.value.email == email
    ensures r.Some? ==> exists i :: 0 <= i < |rows| && rows[i] == r.value && forall k :: 0 <= k < i ==> rows[k].email != email
    ensures r.None? <==> forall k :: 0 <= k < |rows| ==> rows[k].email != email
  {
    if rows == [] then None
    else if rows[0].email == email then Some(rows[0])
    else FindByEmail(rows[1..], email)
  }

  /** No two rows share an email. */
  ghost predicate UniqueEmails(rows: seq<User>)
  {
    forall i, j :: 0 <= i < j < |rows| ==> rows[i].email != rows[j].email
  }

  /** The row signup creates from its parameters. */
  function NewBuyer(params: SignupParams, hash: (string, nat) -> string): User
  {
    User(params.email, params.name, params.phone, hash(params.password, SaltRounds), BUYER)
  }

  /**
    What signup does to a table: the result it returns and the table after it.
    The methods below are proved to follow it.
   */
  function SignupOn(rows: seq<User>, params: SignupParams, hash: (string, nat) -> string): (Result<User, SignupError>, seq<User>)
  {
    if FindByEmail(rows, params.email).Some? then (Failure(Conflict), rows)
    else
      var user := NewBuyer(params, hash);
      (Success(user), rows + [user])
  }

  // ---------------------------------------------------------------------------
  // Properties of signup

  /** A registered email is refused and the table is left as it was. */
  lemma DuplicateEmailConflicts(rows: seq<User>, params: SignupParams, hash: (string, nat) -> string, k: nat)
    requires k < |rows| && rows[k].email == params.email
    ensures SignupOn(rows, params, hash) == (Failure(Conflict), rows)
  {
  }

  /**
    A new email adds exactly one row at the end and leaves every existing
    row in place; the row is the one returned.
   */
  lemma NewEmailAppendsOne(rows: seq<User>, params: SignupParams, hash: (string, nat) -> string)
    requires forall k :: 0 <= k < |rows| ==> rows[k].email != params.email
    ensures var (result, after) := SignupOn(rows, params, hash);
      && result.Success?
      && |after| == |rows| + 1
      && after[..|rows|] == rows
      && after[|rows|] == result.value
  {
  }

  /**
    The created row carries the given email, name and phone, the hash of the
    password and the type BUYER: signup never creates a realtor or an admin.
   */
  lemma CreatedRowContents(rows: seq<User>, params: SignupParams, hash: (string, nat) -> string)
    requires SignupOn(rows, params, hash).0.Success?
    ensures var user := SignupOn(rows, params, hash).0.value;
      && user.email == params.email
      && user.name == params.name
      && user.phone == params.phone
      && user.password == hash(params.password, SaltRounds)
      && user.userType == BUYER
  {
  }

  /** Signup only ever adds buyers: every non-buyer row was already there. */
  lemma SignupAddsOnlyBuyers(rows: seq<User>, params: SignupParams, hash: (string, nat) -> string, u: User)
    requires u in SignupOn(rows, params, hash).1 && u.userType != BUYER
    ensures u in rows
  {
  }

  /** Signup keeps emails unique, on both paths. */
  lemma SignupKeepsEmailsUnique(rows: seq<User>, params: SignupParams, hash: (string, nat) -> string)
    requires UniqueEmails(rows)
    ensures UniqueEmails(SignupOn(rows, params, hash).1)
  {
    var after := SignupOn(rows, params, hash).1;
    if FindByEmail(rows, params.email).None? {
      forall i, j | 0 <= i < j < |after| ensures after[i].email != after[j].email {
        if j == |rows| {
          assert after[i] == rows[i];
        }
      }
    }
  }

  /** Signing up twice with one email: the second attempt conflicts and changes nothing. */
  lemma SecondSignupConflicts(rows: seq<User>, params: SignupParams, params2: SignupParams, hash: (string, nat) -> string)
    requires SignupOn(rows, params, hash).0.Success?
    requires params2.email == params.email
    ensures var after := SignupOn(rows, params, hash).1;
      SignupOn(after, params2, hash) == (Failure(Conflict), after)
  {
    var after := SignupOn(rows, params, hash).1;
    DuplicateEmailConflicts(after, params2, hash, |rows|);
  }

  // ---------------------------------------------------------------------------
  // The service and the table it writes to

  /** The user table, changed in place by `create`. */
  class UserTable {
    var rows: seq<User>

    constructor (initial: seq<User>)
      ensures rows == initial
    {
      rows := initial;
    }

    /** `user.findUnique({ where: { email } })`. */
    method FindUnique(email: string) returns (r: Option<User>)
      ensures r.Some? ==> r.value in rows && r.value.email == email
      ensures r.None? <==> forall k :: 0 <= k < |rows| ==> rows[k].email != email
    {
      r := FindByEmail(rows, email);
    }

    /** `user.create({ data })`: appends the row and returns it. */
    method Create(data: User) returns (created: User)
      modifies this
      ensures rows == old(rows) + [data]
      ensures created == data
    {
      rows := rows + [data];
      created := data;
    }
  }

  class Service {
    const prisma: UserTable
    const hash: (string, nat) -> string

    constructor (prisma: UserTable, hash: (string, nat) -> string)
      ensures this.prisma == prisma && this.hash == hash
    {
      this.prisma := prisma;
      this.hash := hash;
    }

    /** `signup`: refuses a registered email, otherwise creates a buyer. */
    method Signup(params: SignupParams) returns (r: Result<User, SignupError>)
      modifies prisma
      ensures (r, prisma.rows) == SignupOn(old(prisma.rows), params, hash)
      ensures r.Failure? <==> FindByEmail(old(prisma.rows), params.email).Some?
      ensures UniqueEmails(old(prisma.rows)) ==> UniqueEmails(prisma.rows)
    {
      ghost var before := prisma.rows;
      var userExists := prisma.FindUnique(params.email);
      if userExists.Some? {
        return Failure(Conflict);
      }
      var hashedPassword := hash(params.password, SaltRounds);
      var user := prisma.Create(User(params.email, params.name, params.phone, hashedPassword, BUYER));
      if UniqueEmails(before) {
        SignupKeepsEmailsUnique(before, params, hash);
      }
      r := Success(user);
    }
  }
}
