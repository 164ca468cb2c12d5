/** The login screen's credential decision, without its widget effects. */
module Login {

  /** The four accepted accounts; each role is also its user name. */
  datatype Role = Doctor | Nurse | Staff | Billing

  const Password: string := "123"

  function RoleName(r: Role): string
  {
    match r
    case Doctor => "Doctor"
    case Nurse => "Nurse"
    case Staff => "Staff"
    case Billing => "Billing"
  }

  /** The three outcomes of pressing Login. */
  datatype Outcome = Success(role: Role) | MissingFields | Incorrect

  /** What the screen shows and holds after the decision: the message, and
      the user-name and password fields (cleared on a wrong guess). */
  datatype Screen = Screen(message: string, username: string, password: string)

  /** `checkLogin`'s decision: the accounts are tried in order, with exact,
      case-sensitive comparison, before any field is checked for being
      empty. */
  function Decide(username: string, password: string): (o: Outcome)
    ensures o.Success? ==> RoleName(o.role) == username && password == Password
    ensures o.MissingFields? ==> username == "" || password == ""
    ensures o.Incorrect? ==> username != "" && password != ""
  {
    if username == "Doctor" && password == Password then Success(Doctor)
    else if username == "Nurse" && password == Password then Success(Nurse)
    else if username == "Staff" && password == Password then Success(Staff)
    else if username == "Billing" && password == Password then Success(Billing)
    else if username == "" || password == "" then MissingFields
    else Incorrect
  }

  /** A known account: a role's name with the shared password. */
  predicate Known(username: string, password: string) {
    exists r: Role :: RoleName(r) == username && password == Password
  }

  /** The message and field contents `checkLogin` leaves on screen: one of
      three messages, decided by the inputs alone; only a wrong guess
      clears the fields. */
  function CheckLogin(username: string, password: string): (s: Screen)
    ensures s.message == "Login Successful!" <==> Known(username, password)
    ensures s.message == "Enter All Fields!" <==> username == "" || password == ""
    ensures s.message == "Incorrect Username or Password" <==>
              !Known(username, password) && username != "" && password != ""
    ensures s.message == "Incorrect Username or Password" ==> s.username == "" && s.password == ""
    ensures s.message != "Incorrect Username or Password" ==>
              s.username == username && s.password == password
  {
    SuccessIff(username, password);
    EmptyFieldMeansMissing(username, password);
    match Decide(username, password)
    case Success(_) => Screen("Login Successful!", username, password)
    case MissingFields => Screen("Enter All Fields!", username, password)
    case Incorrect => Screen("Incorrect Username or Password", "", "")
  }

  /** Exactly four credential pairs succeed: a role's own name with the
      shared password; the role handed on is the one named. */
  lemma SuccessIff(username: string, password: string)
    ensures Decide(username, password).Success? <==> Known(username, password)
    ensures forall r: Role :: Decide(RoleName(r), Password) == Success(r)
  {
  }

  /** Account matching comes first, but every account has a non-empty user
      name and password, so an empty field always means MissingFields. */
  lemma EmptyFieldMeansMissing(username: string, password: string)
    ensures username == "" || password == "" <==> Decide(username, password) == MissingFields
  {
  }

  /** Any other pair of non-empty fields is Incorrect. */
  lemma IncorrectIff(username: string, password: string)
    ensures Decide(username, password) == Incorrect <==>
              username != "" && password != "" && !Known(username, password)
  {
  }

  /** Case matters: the lower-case spelling of a role is refused. */
  lemma CaseSensitive()
    ensures Decide("doctor", "123") == Incorrect
  {
  }
}
