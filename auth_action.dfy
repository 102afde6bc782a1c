/**
 * The `register` server action: check the fields, look the email up, hash
 * the password and insert the user. The database calls and the hash are
 * foreign: the user table is a map updated in place, `hash` is an
 * uninterpreted function, the new id is a parameter, and each database call
 * may throw (`lookupFault`, `insertFault`).
 */
module AuthAction {
  import opened Wrappers
  import opened Types

  /** A stored user; `password` holds the hash. */
  datatype User = User(name: string, email: string, password: string)

  /** The user as the response shows it: no password. */
  datatype PublicUser = PublicUser(id: UserId, name: string, email: string)

  datatype RegisterResponse = RegisterResponse(success: bool, error: Option<string>, user: Option<PublicUser>)

  /** A value thrown inside the `try`: an `Error` with its message, or anything else. */
  datatype Fault = ErrorFault(message: string) | NonErrorFault

  const FieldsRequired := "All fields are required"
  const EmailExists := "Email already exists"
  const FailurePrefix := "Registration failed: "

  /** The message of the `catch` block. */
  function FaultMessage(f: Fault): (r: string)
    ensures |r| >= |FailurePrefix| && r[..|FailurePrefix|] == FailurePrefix
    ensures f.ErrorFault? ==> r[|FailurePrefix|..] == f.message
    ensures f.NonErrorFault? ==> r == FailurePrefix + "Unknown error"
  {
    match f
    case ErrorFault(m) => FailurePrefix + m
    case NonErrorFault => FailurePrefix + "Unknown error"
  }

  /**
   * A caught fault never reads as one of the two fixed answers, so the
   * message tells a caller which of the three kinds of failure happened.
   */
  lemma FaultMessageIsNotFixed(f: Fault)
    ensures FaultMessage(f) != FieldsRequired && FaultMessage(f) != EmailExists
  {
    assert FaultMessage(f)[0] == 'R';
    assert FieldsRequired[0] == 'A' && EmailExists[0] == 'E';
  }

  function Failure(message: string): RegisterResponse {
    RegisterResponse(false, Some(message), None)
  }

  /** `prisma.user.findUnique({ where: { email } })` finds a user. */
  predicate EmailTaken(users: map<UserId, User>, email: string) {
    exists id :: id in users && users[id].email == email
  }

  /** No two users share an email. */
  ghost predicate EmailsUnique(users: map<UserId, User>) {
    forall a, b :: a in users && b in users && users[a].email == users[b].email ==> a == b
  }

  const SaltRounds := 10

  /**
   * The outcome of one call: the response and the user table afterwards.
   * Exactly one user is added on success; every failure leaves the table
   * as it was.
   */
  function RegisterOutcome(users: map<UserId, User>, name: string, email: string, password: string,
                           hash: (string, int) -> string, freshId: UserId,
                           lookupFault: Option<Fault>, insertFault: Option<Fault>): (r: (RegisterResponse, map<UserId, User>))
    requires freshId !in users
    ensures r.0.success <==>
      name != "" && email != "" && password != "" &&
      lookupFault.None? && !EmailTaken(users, email) && insertFault.None?
    ensures r.0.success ==>
      r.1 == users[freshId := User(name, email, hash(password, SaltRounds))] &&
      r.0 == RegisterResponse(true, None, Some(PublicUser(freshId, name, email)))
    ensures !r.0.success ==> r.1 == users && r.0.user.None? && r.0.error.Some?
    ensures (name == "" || email == "" || password == "") ==> r.0.error == Some(FieldsRequired)
    ensures name != "" && email != "" && password != "" && lookupFault.Some? ==>
      r.0.error == Some(FaultMessage(lookupFault.value))
    ensures name != "" && email != "" && password != "" && lookupFault.None? && EmailTaken(users, email) ==>
      r.0.error == Some(EmailExists)
    ensures name != "" && email != "" && password != "" && lookupFault.None? && !EmailTaken(users, email) &&
            insertFault.Some? ==>
      r.0.error == Some(FaultMessage(insertFault.value))
    ensures !r.0.success && r.0.error != Some(FieldsRequired) && r.0.error != Some(EmailExists) ==>
      |r.0.error.value| >= |FailurePrefix| && r.0.error.value[..|FailurePrefix|] == FailurePrefix
  {
    if name == "" || email == "" || password == "" then (Failure(FieldsRequired), users)
    else if lookupFault.Some? then (Failure(FaultMessage(lookupFault.value)), users)
    else if EmailTaken(users, email) then (Failure(EmailExists), users)
    else if insertFault.Some? then (Failure(FaultMessage(insertFault.value)), users)
    else
      (RegisterResponse(true, None, Some(PublicUser(freshId, name, email))),
       users[freshId := User(name, email, hash(password, SaltRounds))])
  }

  /** Registering keeps emails unique, so repeated calls never give two users one email. */
  lemma RegisterKeepsEmailsUnique(users: map<UserId, User>, name: string, email: string, password: string,
                                  hash: (string, int) -> string, freshId: UserId,
                                  lookupFault: Option<Fault>, insertFault: Option<Fault>)
    requires freshId !in users && EmailsUnique(users)
    ensures EmailsUnique(RegisterOutcome(users, name, email, password, hash, freshId, lookupFault, insertFault).1)
  {
    var r := RegisterOutcome(users, name, email, password, hash, freshId, lookupFault, insertFault);
    if r.0.success {
      forall a, b | a in r.1 && b in r.1 && r.1[a].email == r.1[b].email ensures a == b {
      }
    }
  }

  /** A second registration with the same email fails and adds nobody. */
  lemma SecondRegistrationFails(users: map<UserId, User>, name: string, email: string, password: string,
                                hash: (string, int) -> string, id1: UserId, id2: UserId,
                                name2: string, password2: string, fault: Option<Fault>)
    requires id1 !in users && id2 !in users && id1 != id2
    requires RegisterOutcome(users, name, email, password, hash, id1, None, None).0.success
    ensures var after := RegisterOutcome(users, name, email, password, hash, id1, None, None).1;
      var again := RegisterOutcome(after, name2, email, password2, hash, id2, None, fault);
      !again.0.success && again.1 == after
  {
    var after := RegisterOutcome(users, name, email, password, hash, id1, None, None).1;
    assert after[id1].email == email;
  }

  /** The user table, changed in place by `prisma.user.create`. */
  class UserRegistry {
    var users: map<UserId, User>

    constructor (initial: map<UserId, User>)
      ensures users == initial
    {
      users := initial;
    }
  }

  /** `register(name, email, password)`: early returns, a lookup, then one insert. */
  method Register(reg: UserRegistry, name: string, email: string, password: string,
                  hash: (string, int) -> string, freshId: UserId,
                  lookupFault: Option<Fault>, insertFault: Option<Fault>) returns (response: RegisterResponse)
    requires freshId !in reg.users
    modifies reg
    ensures (response, reg.users) == RegisterOutcome(old(reg.users), name, email, password, hash, freshId, lookupFault, insertFault)
  {
    if name == "" || email == "" || password == "" {
      return Failure(FieldsRequired);
    }
    if lookupFault.Some? {
      return Failure(FaultMessage(lookupFault.value));
    }
    if EmailTaken(reg.users, email) {
      return Failure(EmailExists);
    }
    var hashed := hash(password, SaltRounds);
    if insertFault.Some? {
      return Failure(FaultMessage(insertFault.value));
    }
    reg.users := reg.users[freshId := User(name, email, hashed)];
    response := RegisterResponse(true, None, Some(PublicUser(freshId, name, email)));
  }
}
