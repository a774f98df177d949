/**
 * The administrator's user management: adding an account of any role,
 * deleting one after confirmation, and the search box over the user list.
 */
module AdminDashboard {
  import opened Wrappers
  import opened Seqs
  import opened Text
  import opened Types
  import opened Db

  /** The account the add-user form creates: the specialty is kept for doctors only. */
  function FormUser(id: string, name: string, email: string, role: Role, specialty: string): (u: User)
    ensures u.id == id && u.name == name && u.email == email && u.role == role
    ensures u.specialty.Some? <==> role == Doctor
    ensures role == Doctor ==> u.specialty == Some(specialty)
    ensures u.phone.None?
  {
    User(id, name, role, email, if role == Doctor then Some(specialty) else None, None)
  }

  /** The search test: the lower-cased email or name includes the lower-cased term. */
  predicate MatchesSearch(u: User, term: string) {
    Contains(Lower(u.email), Lower(term)) || Contains(Lower(u.name), Lower(term))
  }

  /**
   * A user matches exactly when the lower-cased term occurs at some position of
   * the lower-cased email or name. The empty term matches every account, and a
   * match needs a field at least as long as the term.
   */
  lemma SearchMatchWindows(u: User, term: string)
    ensures MatchesSearch(u, term) <==> (exists i :: OccursAt(Lower(u.email), Lower(term), i)) || (exists i :: OccursAt(Lower(u.name), Lower(term), i))
    ensures term == "" ==> MatchesSearch(u, term)
    ensures MatchesSearch(u, term) ==> |term| <= |u.email| || |term| <= |u.name|
  {
    ContainsEmpty(Lower(u.email));
  }

  function Matching(term: string): User -> bool { (u: User) => MatchesSearch(u, term) }

  /** `filteredUsers`: exactly the matching users, in list order; an empty term keeps everyone. */
  function FilteredUsers(users: seq<User>, term: string): (r: seq<User>)
    ensures forall i :: 0 <= i < |r| ==> r[i] in users && MatchesSearch(r[i], term)
    ensures forall i :: 0 <= i < |users| && MatchesSearch(users[i], term) ==> users[i] in r
    ensures IsSubsequence(r, users)
    ensures term == "" ==> r == users
    ensures forall x :: multiset(r)[x] == if MatchesSearch(x, term) then multiset(users)[x] else 0
  {
    FilterIsSubsequence(users, Matching(term));
    FilterCounts(users, Matching(term));
    assert term == "" ==> Filter(users, Matching(term)) == users by {
      if term == "" {
        forall u: User ensures MatchesSearch(u, term) {
          SearchMatchWindows(u, term);
        }
        FilterKeepsAll(users, Matching(term));
      }
    }
    Filter(users, Matching(term))
  }

  /** A row offers the delete control unless it is the logged-in administrator's own account. */
  predicate ShowsDeleteControl(row: User, admin: User): (shown: bool)
    ensures row.id == admin.id ==> !shown
    ensures row.id != admin.id ==> shown
  {
    row.id != admin.id
  }

  /** Deleting through an offered control never removes the logged-in administrator. */
  lemma OfferedDeleteKeepsAdmin(users: seq<User>, admin: User, row: User)
    requires admin in users && ShowsDeleteControl(row, admin)
    ensures admin in WithoutUser(users, row.id)
  {
    var i :| 0 <= i < |users| && users[i] == admin;
  }

  /** The panel's state. */
  class UserAdmin {
    const admin: User
    var usersList: seq<User>
    var showAddModal: bool
    var searchTerm: string
    var newEmail: string
    var newName: string
    var newRole: Role
    var newSpecialty: string

    /** Mounting loads the user list; the form starts empty with role DOCTOR. */
    constructor (admin: User, store: RecordStore)
      ensures this.admin == admin && usersList == store.GetUsers()
      ensures !showAddModal && searchTerm == ""
      ensures newEmail == "" && newName == "" && newRole == Doctor && newSpecialty == ""
    {
      this.admin := admin;
      usersList := store.GetUsers();
      showAddModal, searchTerm := false, "";
      newEmail, newName, newRole, newSpecialty := "", "", Doctor, "";
    }

    /**
     * `handleAddUser`: appends the form's account, closes the modal, clears the
     * text fields (the role stays selected) and reloads the list. `id` is the
     * clock reading used as the account id.
     */
    method HandleAddUser(store: RecordStore, id: string)
      modifies this, store
      ensures store.userEntry == Some(old(store.GetUsers()) + [FormUser(id, old(newName), old(newEmail), old(newRole), old(newSpecialty))])
      ensures store.rxEntry == old(store.rxEntry)
      ensures !showAddModal && newName == "" && newEmail == "" && newSpecialty == ""
      ensures newRole == old(newRole) && searchTerm == old(searchTerm)
      ensures usersList == store.GetUsers()
    {
      var newUser := FormUser(id, newName, newEmail, newRole, newSpecialty);
      store.AddUser(newUser);
      showAddModal := false;
      newName, newEmail, newSpecialty := "", "", "";
      usersList := store.GetUsers();
    }

    /** `handleDeleteUser(id)`: `confirmed` is the answer to the confirmation dialog. */
    method HandleDeleteUser(store: RecordStore, id: string, confirmed: bool)
      modifies this`usersList, store
      ensures confirmed ==> store.userEntry == Some(WithoutUser(old(store.GetUsers()), id)) && usersList == store.GetUsers()
      ensures !confirmed ==> store.userEntry == old(store.userEntry) && usersList == old(usersList)
      ensures store.rxEntry == old(store.rxEntry)
    {
      if confirmed {
        store.DeleteUser(id);
        usersList := store.GetUsers();
      }
    }
  }
}
