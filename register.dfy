/**
 * Patient self-registration: an email already registered under any role, in
 * any letter case, is refused; otherwise one PATIENT account is appended.
 */
module Register {
  import opened Wrappers
  import opened Seqs
  import opened Text
  import opened Types
  import opened Db

  const DuplicateMessage := "This email is already registered in our medical database."

  function SameEmail(email: string): User -> bool {
    (u: User) => EqualsIgnoreCase(u.email, email)
  }

  /** Some stored account, of any role, has this email ignoring case. */
  predicate EmailTaken(users: seq<User>, email: string) {
    exists i :: 0 <= i < |users| && EqualsIgnoreCase(users[i].email, email)
  }

  /**
   * An email is taken exactly when the duplicate search `find` succeeds, and it
   * is taken whenever a login under some role would find it.
   */
  lemma TakenExactlyWhenFound(users: seq<User>, email: string)
    ensures EmailTaken(users, email) <==> Find(users, SameEmail(email)).Some?
    ensures forall role :: UserByEmail(users, email, role).Some? ==> EmailTaken(users, email)
  {
  }

  /** The account a successful registration appends: a PATIENT with the entered name, email and phone. */
  function NewPatient(id: string, name: string, email: string, phone: string): (u: User)
    ensures u.id == id && u.role == Patient
    ensures u.name == name && u.email == email && u.phone == Some(phone)
    ensures u.specialty.None?
  {
    User(id, name, Patient, email, None, Some(phone))
  }

  /** No two stored accounts share an email ignoring case. */
  predicate EmailsDistinct(users: seq<User>) {
    forall i, j :: 0 <= i < j < |users| ==> !EqualsIgnoreCase(users[i].email, users[j].email)
  }

  /** Appending an account whose email is not taken keeps the emails distinct. */
  lemma AppendFreshEmailKeepsDistinct(users: seq<User>, u: User)
    requires EmailsDistinct(users) && !EmailTaken(users, u.email)
    ensures EmailsDistinct(users + [u])
  {
    var s := users + [u];
    forall i, j | 0 <= i < j < |s|
      ensures !EqualsIgnoreCase(s[i].email, s[j].email)
    {
      if j == |users| {
        assert s[i] == users[i] && s[j] == u;
        EqualsIgnoreCaseIsEquivalence(users[i].email, u.email, u.email);
      }
    }
  }

  /** The registration form's state. */
  class RegisterForm {
    var name: string
    var email: string
    var phone: string
    var isSuccess: bool
    var error: string

    constructor ()
      ensures name == "" && email == "" && phone == "" && !isSuccess && error == ""
    {
      name, email, phone := "", "", "";
      isSuccess, error := false, "";
    }

    /**
     * `handleSubmit`: refuses a taken email with an error and no write;
     * otherwise appends the new patient and reports success. `id` is the
     * clock reading used as the new account's id.
     */
    method HandleSubmit(store: RecordStore, id: string)
      modifies this`error, this`isSuccess, store
      ensures EmailTaken(old(store.GetUsers()), email) ==>
        error == DuplicateMessage && isSuccess == old(isSuccess) && store.userEntry == old(store.userEntry)
      ensures !EmailTaken(old(store.GetUsers()), email) ==>
        error == "" && isSuccess && store.userEntry == Some(old(store.GetUsers()) + [NewPatient(id, name, email, phone)])
      ensures EmailsDistinct(old(store.GetUsers())) ==> EmailsDistinct(store.GetUsers())
      ensures store.rxEntry == old(store.rxEntry)
    {
      error := "";
      var existing := Find(store.GetUsers(), SameEmail(email));
      if existing.Some? {
        error := DuplicateMessage;
        return;
      }
      ghost var before := store.GetUsers();
      var newUser := NewPatient(id, name, email, phone);
      store.AddUser(newUser);
      isSuccess := true;
      if EmailsDistinct(before) {
        AppendFreshEmailKeepsDistinct(before, newUser);
      }
    }
  }
}
