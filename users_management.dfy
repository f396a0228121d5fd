/** The team page for managers (frontend/src/pages/UsersManagement.tsx):
    the user list it keeps in memory, its search, the add, edit, status
    toggle and delete handlers, the counters, and the access check. Each
    handler hands `setUsers` a new list built from the old one, so each is
    a function here; the id and date of a new user are parameters. */
module UsersManagement {
  import opened Common

  datatype Role = Gerant | Vendeur
  datatype Statut = Actif | Inactif

  datatype UserData = UserData(
    id: string,
    nom: string,
    prenom: string,
    email: string,
    telephone: string,
    role: Role,
    statut: Statut,
    dateCreation: string,
    profile_photo: Option<string>)

  /** The modal's fields. */
  datatype UserForm = UserForm(nom: string, prenom: string, email: string, telephone: string, password: string, role: Role)

  const REQUIRED_FIELDS: string := "Veuillez remplir tous les champs obligatoires"

  /** The form after a successful add or update. */
  const EMPTY_FORM: UserForm := UserForm("", "", "", "", "", Vendeur)

  // ------------------------------------------------------------ access

  /** What the page shows to the signed-in user with role `viewerRole`. */
  datatype PageView = AccessDenied | UserList(users: seq<UserData>)

  function View(viewerRole: Option<string>, users: seq<UserData>, searchTerm: string): PageView
  {
    if viewerRole != Some("gerant") then AccessDenied else UserList(FilteredUsers(users, searchTerm))
  }

  /** Only a manager sees the list, and then sees exactly the search
      results. */
  lemma ViewSpec(viewerRole: Option<string>, users: seq<UserData>, searchTerm: string)
    ensures View(viewerRole, users, searchTerm).UserList? <==> viewerRole == Some("gerant")
    ensures View(viewerRole, users, searchTerm).UserList? ==>
      forall u :: u in View(viewerRole, users, searchTerm).users <==> u in users && UserMatches(u, searchTerm)
  {
    if viewerRole == Some("gerant") {
      forall u ensures u in FilteredUsers(users, searchTerm) <==> u in users && UserMatches(u, searchTerm) {
        FilteredUsersIff(users, searchTerm, u);
      }
    }
  }

  // ------------------------------------------------------------ search

  predicate UserMatches(u: UserData, term: string)
  {
    IncludesIgnoringCase(u.nom, term) || IncludesIgnoringCase(u.prenom, term) || IncludesIgnoringCase(u.email, term)
  }

  /** `filteredUsers` */
  function FilteredUsers(users: seq<UserData>, term: string): seq<UserData>
  {
    Filter(users, (u: UserData) => UserMatches(u, term))
  }

  /** A user is listed exactly when its surname, first name or email
      contains the search term, ignoring case; an empty term lists
      everyone. */
  lemma {:induction false} FilteredUsersIff(users: seq<UserData>, term: string, x: UserData)
    ensures x in FilteredUsers(users, term) <==> x in users && UserMatches(x, term)
    ensures term == [] ==> FilteredUsers(users, term) == users
  {
    if users != [] {
      FilteredUsersIff(users[1..], term, x);
      assert users == [users[0]] + users[1..];
    }
    if term == [] {
      forall u: UserData ensures UserMatches(u, term) {
        IncludesEmpty(Lower(u.nom));
      }
      FilterAll(users, (u: UserData) => UserMatches(u, term));
    }
  }

  // ---------------------------------------------------------------- add

  /** `handleAddUser`, with the id and the date `Date.now()` gives. */
  function AddUser(users: seq<UserData>, form: UserForm, newId: string, today: string): Result<seq<UserData>, string>
  {
    if form.nom == "" || form.prenom == "" || form.email == "" || form.password == "" then Failure(REQUIRED_FIELDS)
    else Success(users + [UserData(newId, form.nom, form.prenom, form.email, form.telephone, form.role, Actif, today, None)])
  }

  /** The add is refused exactly when the surname, first name, email or
      password is empty; otherwise one active user with the form's data and
      no photo is appended, the others untouched, and the counters of
      users and of active users each go up by one. The password is not
      kept. */
  lemma AddUserSpec(users: seq<UserData>, form: UserForm, newId: string, today: string)
    ensures var r := AddUser(users, form, newId, today);
      && (r.Failure? <==> form.nom == [] || form.prenom == [] || form.email == [] || form.password == [])
      && (r.Failure? ==> r.error == REQUIRED_FIELDS)
      && (r.Success? ==>
            && |r.value| == |users| + 1 && r.value[..|users|] == users
            && var u := r.value[|users|];
               && u.id == newId && u.nom == form.nom && u.prenom == form.prenom && u.email == form.email
               && u.telephone == form.telephone && u.role == form.role && u.statut == Actif
               && u.dateCreation == today && u.profile_photo.None?)
      && (r.Success? ==> Counts(r.value).total == Counts(users).total + 1 && Counts(r.value).actifs == Counts(users).actifs + 1)
  {
    var r := AddUser(users, form, newId, today);
    if r.Success? {
      var u := r.value[|users|];
      assert r.value == users + [u];
      CountsAppend(users, [u]);
      assert [u][1..] == [];
    }
  }

  // ------------------------------------------------------------- update

  /** The user the edit touches, with the form's fields. */
  function Edited(u: UserData, form: UserForm): UserData
  {
    u.(nom := form.nom, prenom := form.prenom, email := form.email, telephone := form.telephone, role := form.role)
  }

  /** `handleUpdateUser` for the user chosen when the modal opened. */
  function UpdateUser(users: seq<UserData>, selected: Option<UserData>, form: UserForm): Result<seq<UserData>, string>
  {
    if selected.None? || form.nom == "" || form.prenom == "" || form.email == "" then Failure(REQUIRED_FIELDS)
    else Success(seq(|users|, k requires 0 <= k < |users| =>
      if users[k].id == selected.value.id then Edited(users[k], form) else users[k]))
  }

  /** The update is refused exactly when no user is chosen or the surname,
      first name or email is empty (the password is not needed); otherwise
      the users with the chosen id get the form's name, email, phone and
      role and keep id, status, date and photo, and every other user is
      unchanged. */
  lemma UpdateUserSpec(users: seq<UserData>, selected: Option<UserData>, form: UserForm)
    ensures var r := UpdateUser(users, selected, form);
      && (r.Failure? <==> selected.None? || form.nom == [] || form.prenom == [] || form.email == [])
      && (r.Failure? ==> r.error == REQUIRED_FIELDS)
      && (r.Success? ==>
            && |r.value| == |users|
            && forall k :: 0 <= k < |users| ==>
                 && r.value[k].id == users[k].id && r.value[k].statut == users[k].statut
                 && r.value[k].dateCreation == users[k].dateCreation && r.value[k].profile_photo == users[k].profile_photo
                 && (users[k].id == selected.value.id ==>
                       r.value[k].nom == form.nom && r.value[k].prenom == form.prenom && r.value[k].email == form.email
                       && r.value[k].telephone == form.telephone && r.value[k].role == form.role)
                 && (users[k].id != selected.value.id ==> r.value[k] == users[k]))
  {
  }

  // ------------------------------------------------------------- status

  function Flip(s: Statut): Statut
  {
    if s == Actif then Inactif else Actif
  }

  /** `handleToggleStatus(userId)` */
  function ToggleStatus(users: seq<UserData>, userId: string): (r: seq<UserData>)
    ensures |r| == |users|
  {
    seq(|users|, k requires 0 <= k < |users| =>
      if users[k].id == userId then users[k].(statut := Flip(users[k].statut)) else users[k])
  }

  /** Only the users with that id change, and only in their status, which
      flips; toggling twice gives the list back. */
  lemma ToggleStatusSpec(users: seq<UserData>, userId: string)
    ensures var r := ToggleStatus(users, userId);
      forall k :: 0 <= k < |users| ==>
        && (users[k].id == userId ==> r[k] == users[k].(statut := Flip(users[k].statut)) && r[k].statut != users[k].statut)
        && (users[k].id != userId ==> r[k] == users[k])
    ensures ToggleStatus(ToggleStatus(users, userId), userId) == users
  {
    var twice := ToggleStatus(ToggleStatus(users, userId), userId);
    forall k | 0 <= k < |users| ensures twice[k] == users[k] {
    }
  }

  // ------------------------------------------------------------- delete

  /** `handleDeleteUser(userId)`, given the answer to the confirmation. */
  function DeleteUser(users: seq<UserData>, userId: string, confirmed: bool): seq<UserData>
  {
    if confirmed then Filter(users, (u: UserData) => u.id != userId) else users
  }

  /** A confirmed delete removes exactly the users with that id and keeps
      the others in order; a declined one changes nothing. */
  lemma DeleteUserSpec(users: seq<UserData>, userId: string, x: UserData)
    ensures x in DeleteUser(users, userId, true) <==> x in users && x.id != userId
    ensures forall k :: 0 <= k < |DeleteUser(users, userId, true)| ==> DeleteUser(users, userId, true)[k].id != userId
    ensures DeleteUser(users, userId, false) == users
    ensures (forall k :: 0 <= k < |users| ==> users[k].id != userId) ==> DeleteUser(users, userId, true) == users
  {
    var r := DeleteUser(users, userId, true);
    if x in r {
      var i :| 0 <= i < |r| && r[i] == x;
    }
    if x in users && x.id != userId {
      var i :| 0 <= i < |users| && users[i] == x;
    }
    if forall k :: 0 <= k < |users| ==> users[k].id != userId {
      FilterAll(users, (u: UserData) => u.id != userId);
    }
  }

  // ------------------------------------------------------------ counters

  datatype UserCounts = UserCounts(total: nat, gerants: nat, vendeurs: nat, actifs: nat)

  /** The four cards above the list. */
  function Counts(users: seq<UserData>): UserCounts
  {
    UserCounts(|users|, Count(users, (u: UserData) => u.role == Gerant), Count(users, (u: UserData) => u.role == Vendeur),
               Count(users, (u: UserData) => u.statut == Actif))
  }

  /** The counters of two lists joined add up. */
  lemma CountsAppend(a: seq<UserData>, b: seq<UserData>)
    ensures Counts(a + b) == UserCounts(|a| + |b|, Counts(a).gerants + Counts(b).gerants,
                                        Counts(a).vendeurs + Counts(b).vendeurs, Counts(a).actifs + Counts(b).actifs)
  {
    FilterAppend(a, b, (u: UserData) => u.role == Gerant);
    FilterAppend(a, b, (u: UserData) => u.role == Vendeur);
    FilterAppend(a, b, (u: UserData) => u.statut == Actif);
  }

  /** Every user is a manager or a seller, so the two role counters add up
      to the total, and the active ones are at most the total. */
  lemma {:induction false} CountsSpec(users: seq<UserData>)
    ensures Counts(users).gerants + Counts(users).vendeurs == Counts(users).total
    ensures Counts(users).actifs <= Counts(users).total
  {
    if users != [] {
      CountsSpec(users[1..]);
      CountCons(users, (u: UserData) => u.role == Gerant);
      CountCons(users, (u: UserData) => u.role == Vendeur);
      CountCons(users, (u: UserData) => u.statut == Actif);
    }
  }
}
