/** The cashier handlers over the user table. The handlers check a
    duplicate name; the store itself keeps usernames unique. */
module KasirCrud {
  import opened Common
  import opened Schema

  const MissingFields := "Semua fields harus diisi!"
  /** The message of the duplicate check, which compares names although it
      speaks of phone numbers. */
  const NameTaken := "No telepon sudah ada"
  const AdminProtected := "Tidak Diperbolehkan untuk menghapus admin"

  /** `getAllKasir`: the users whose role is KASIR, under their ids. */
  function KasirList(rows: map<int, User>): (r: map<int, User>)
    ensures forall id :: id in r <==> id in rows && rows[id].role == Kasir
    ensures forall id :: id in r ==> r[id] == rows[id]
  {
    map id | id in rows && rows[id].role == Kasir :: rows[id]
  }

  /** Some user already has this name: what the `findFirst` on `nama` finds. */
  predicate NameInUse(rows: map<int, User>, nama: string) {
    exists id :: id in rows && rows[id].nama == nama
  }

  /** A user other than `id` has this username. */
  predicate UsernameHeldByOther(rows: map<int, User>, id: int, username: string) {
    exists other :: other in rows && other != id && rows[other].username == username
  }

  /** No two users share a username. */
  predicate UsernamesUnique(rows: map<int, User>) {
    forall a, b :: a in rows && b in rows && rows[a].username == rows[b].username ==> a == b
  }

  predicate Valid(t: Table<User>) {
    WellKeyed(t, UserId) && UsernamesUnique(t.rows)
  }

  /** The role an update stores: an absent `role` field leaves the old one
      in place, the two role names select a role, and any other text is
      refused by the store (`None`). */
  function NewRole(role: Field, current: Role): (r: Option<Role>)
    ensures role.None? ==> r == Some(current)
    ensures r.Some? && role.Some? ==> RoleName(r.value) == role.value
    ensures role.Some? && (role.value == "ADMIN" || role.value == "KASIR") ==> r.Some?
  {
    if role.None? then Some(current)
    else if role.value == RoleName(Admin) then Some(Admin)
    else if role.value == RoleName(Kasir) then Some(Kasir)
    else None
  }

  /** `createKasir`: three fields are required, a user with the same name is
      refused, and the new user is always a cashier holding the password as
      sent. A username already taken makes the store throw. */
  function Create(t: Table<User>, nama: Field, username: Field, password: Field): (out: (Table<User>, Reply<User>))
    ensures out.1.Refused? ==> out.0 == t
    ensures !Filled(nama) || !Filled(username) || !Filled(password) <==> out.1 == Refused(403, MissingFields)
    ensures Filled(nama) && Filled(username) && Filled(password) ==>
              (NameInUse(t.rows, nama.value) <==> out.1 == Refused(403, NameTaken))
    ensures Filled(nama) && Filled(username) && Filled(password) && !NameInUse(t.rows, nama.value) ==>
              (UsernameHeldByOther(t.rows, t.nextId, username.value) <==> out.1 == Refused(500, ServerError))
    ensures out.1.Done? <==>
              Filled(nama) && Filled(username) && Filled(password) && !NameInUse(t.rows, nama.value) &&
              !UsernameHeldByOther(t.rows, t.nextId, username.value)
    ensures out.1.Done? ==>
              out.1 == Done(200, User(t.nextId, nama.value, username.value, password.value, Kasir)) &&
              out.0 == Table(t.rows[t.nextId := out.1.value], t.nextId + 1)
  {
    if !Filled(nama) || !Filled(username) || !Filled(password) then (t, Refused(403, MissingFields))
    else if NameInUse(t.rows, nama.value) then (t, Refused(403, NameTaken))
    else if UsernameHeldByOther(t.rows, t.nextId, username.value) then (t, Refused(500, ServerError))
    else
      var u := User(t.nextId, nama.value, username.value, password.value, Kasir);
      (Table(t.rows[t.nextId := u], t.nextId + 1), Done(200, u))
  }

  /** `updateKasir`: three fields are required; the target row is
      overwritten with them and with the role from the body. */
  function Update(t: Table<User>, id: int, nama: Field, username: Field, password: Field, role: Field)
    : (out: (Table<User>, Reply<User>))
    ensures out.1.Refused? ==> out.0 == t
    ensures !Filled(nama) || !Filled(username) || !Filled(password) <==> out.1 == Refused(403, MissingFields)
    ensures out.1.Done? <==>
              Filled(nama) && Filled(username) && Filled(password) && id in t.rows &&
              NewRole(role, t.rows[id].role).Some? && !UsernameHeldByOther(t.rows, id, username.value)
    ensures out.1.Done? ==>
              out.1 == Done(200, User(id, nama.value, username.value, password.value,
                                      NewRole(role, t.rows[id].role).value)) &&
              out.0 == Table(t.rows[id := out.1.value], t.nextId)
    ensures out.1.Refused? && out.1.status != 403 ==> out.1 == Refused(500, ServerError)
  {
    if !Filled(nama) || !Filled(username) || !Filled(password) then (t, Refused(403, MissingFields))
    else if id !in t.rows then (t, Refused(500, ServerError))
    else
      var r := NewRole(role, t.rows[id].role);
      if r.None? || UsernameHeldByOther(t.rows, id, username.value) then (t, Refused(500, ServerError))
      else
        var u := User(id, nama.value, username.value, password.value, r.value);
        (Table(t.rows[id := u], t.nextId), Done(200, u))
  }

  /** `deleteKasir`: an admin is never deleted; any other user is removed
      and returned; a missing row makes the store throw. */
  function Delete(t: Table<User>, id: int): (out: (Table<User>, Reply<User>))
    ensures out.1.Refused? ==> out.0 == t
    ensures id in t.rows && t.rows[id].role == Admin <==> out.1 == Refused(403, AdminProtected)
    ensures id !in t.rows <==> out.1 == Refused(500, ServerError)
    ensures out.1.Done? <==> id in t.rows && t.rows[id].role != Admin
    ensures out.1.Done? ==>
              out.1.status == 200 && out.1.value == t.rows[id] && out.1.value.role != Admin &&
              out.0.rows.Keys == t.rows.Keys - {id} && out.0.nextId == t.nextId &&
              forall k :: k in out.0.rows ==> out.0.rows[k] == t.rows[k]
  {
    if id in t.rows && t.rows[id].role == Admin then (t, Refused(403, AdminProtected))
    else if id !in t.rows then (t, Refused(500, ServerError))
    else (Table(t.rows - {id}, t.nextId), Done(200, t.rows[id]))
  }

  lemma CreateKeepsValid(t: Table<User>, nama: Field, username: Field, password: Field)
    requires Valid(t)
    ensures Valid(Create(t, nama, username, password).0)
  {
  }

  lemma UpdateKeepsValid(t: Table<User>, id: int, nama: Field, username: Field, password: Field, role: Field)
    requires Valid(t)
    ensures Valid(Update(t, id, nama, username, password, role).0)
  {
  }

  lemma DeleteKeepsValid(t: Table<User>, id: int)
    requires Valid(t)
    ensures Valid(Delete(t, id).0)
  {
  }

  /** A created cashier shows up in the cashier list; the list grows by
      exactly that row. */
  lemma CreatedKasirIsListed(t: Table<User>, nama: Field, username: Field, password: Field)
    requires Valid(t)
    requires Create(t, nama, username, password).1.Done?
    ensures KasirList(Create(t, nama, username, password).0.rows) ==
            KasirList(t.rows)[t.nextId := Create(t, nama, username, password).1.value]
  {
    var after := Create(t, nama, username, password).0.rows;
    var u := Create(t, nama, username, password).1.value;
    assert KasirList(after).Keys == KasirList(t.rows).Keys + {t.nextId};
  }

  /** Deleting never removes an admin: every admin row is still there. */
  lemma DeleteSparesAdmins(t: Table<User>, id: int)
    ensures forall a :: a in t.rows && t.rows[a].role == Admin ==>
              a in Delete(t, id).0.rows && Delete(t, id).0.rows[a] == t.rows[a]
  {
  }

  /** The admin guard looks only at the stored role, and an update takes its
      role from the body: sending `role` KASIR for an admin turns it into a
      cashier, which the next delete then removes. */
  lemma DemotedAdminCanBeDeleted(t: Table<User>, id: int, nama: string, username: string, password: string)
    requires id in t.rows && t.rows[id].role == Admin
    requires nama != "" && username != "" && password != ""
    requires !UsernameHeldByOther(t.rows, id, username)
    ensures Update(t, id, Some(nama), Some(username), Some(password), Some("KASIR")).1.Done?
    ensures Delete(Update(t, id, Some(nama), Some(username), Some(password), Some("KASIR")).0, id).1.Done?
  {
    assert NewRole(Some("KASIR"), Admin) == Some(Kasir);
  }

  /** The user table as the cashier handlers see it. */
  class UserTable {
    var rows: map<int, User>
    var nextId: int

    function State(): Table<User>
      reads this
    {
      Table(rows, nextId)
    }

    constructor (t: Table<User>)
      ensures State() == t
    {
      rows, nextId := t.rows, t.nextId;
    }

    method GetAllKasir() returns (r: map<int, User>)
      ensures r == KasirList(rows)
    {
      r := map id | id in rows && rows[id].role == Kasir :: rows[id];
    }

    method CreateKasir(nama: Field, username: Field, password: Field) returns (r: Reply<User>)
      modifies this
      ensures (State(), r) == Create(old(State()), nama, username, password)
    {
      if !Filled(nama) || !Filled(username) || !Filled(password) {
        return Refused(403, MissingFields);
      }
      if NameInUse(rows, nama.value) {
        return Refused(403, NameTaken);
      }
      if UsernameHeldByOther(rows, nextId, username.value) {
        return Refused(500, ServerError);
      }
      var u := User(nextId, nama.value, username.value, password.value, Kasir);
      rows := rows[nextId := u];
      nextId := nextId + 1;
      r := Done(200, u);
    }

    method UpdateKasir(id: int, nama: Field, username: Field, password: Field, role: Field) returns (r: Reply<User>)
      modifies this
      ensures (State(), r) == Update(old(State()), id, nama, username, password, role)
    {
      if !Filled(nama) || !Filled(username) || !Filled(password) {
        return Refused(403, MissingFields);
      }
      if id !in rows {
        return Refused(500, ServerError);
      }
      var newRole := NewRole(role, rows[id].role);
      if newRole.None? || UsernameHeldByOther(rows, id, username.value) {
        return Refused(500, ServerError);
      }
      var u := User(id, nama.value, username.value, password.value, newRole.value);
      rows := rows[id := u];
      r := Done(200, u);
    }

    method DeleteKasir(id: int) returns (r: Reply<User>)
      modifies this
      ensures (State(), r) == Delete(old(State()), id)
    {
      if id in rows && rows[id].role == Admin {
        return Refused(403, AdminProtected);
      }
      if id !in rows {
        return Refused(500, ServerError);
      }
      r := Done(200, rows[id]);
      rows := rows - {id};
    }
  }
}
