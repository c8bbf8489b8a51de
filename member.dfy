/** The member handlers: guarded inserts, updates and deletes on the member
    table, whose phone numbers the store keeps unique. */
module MemberCrud {
  import opened Common
  import opened Schema

  const MissingFields := "Semua fields harus diisi!"
  const PhoneTaken := "No telepon sudah ada"

  /** Some member already has this phone number: what the `findFirst` on
      `noTelepon` finds. */
  predicate PhoneInUse(rows: map<int, Member>, phone: string) {
    exists id :: id in rows && rows[id].noTelepon == phone
  }

  /** A member other than `id` has this phone number: the store's unique
      index on `noTelepon` then refuses to give it to `id`. */
  predicate PhoneHeldByOther(rows: map<int, Member>, id: int, phone: string) {
    exists other :: other in rows && other != id && rows[other].noTelepon == phone
  }

  /** No two members share a phone number. */
  predicate PhonesUnique(rows: map<int, Member>) {
    forall a, b :: a in rows && b in rows && rows[a].noTelepon == rows[b].noTelepon ==> a == b
  }

  /** The table invariant the handlers keep. */
  predicate Valid(t: Table<Member>) {
    WellKeyed(t, MemberId) && PhonesUnique(t.rows)
  }

  /** `createMember`: both fields are required, and a phone number already
      in the table is refused before the insert. */
  function Create(t: Table<Member>, nama: Field, noTelepon: Field): (out: (Table<Member>, Reply<Member>))
    ensures out.1.Refused? ==> out.0 == t
    ensures !Filled(nama) || !Filled(noTelepon) <==> out.1 == Refused(403, MissingFields)
    ensures Filled(nama) && Filled(noTelepon) ==>
              (PhoneInUse(t.rows, noTelepon.value) <==> out.1 == Refused(403, PhoneTaken))
    ensures out.1.Done? <==> Filled(nama) && Filled(noTelepon) && !PhoneInUse(t.rows, noTelepon.value)
    ensures out.1.Done? ==>
              out.1 == Done(200, Member(t.nextId, nama.value, noTelepon.value)) &&
              out.0 == Table(t.rows[t.nextId := out.1.value], t.nextId + 1)
  {
    if !Filled(nama) || !Filled(noTelepon) then (t, Refused(403, MissingFields))
    else if PhoneInUse(t.rows, noTelepon.value) then (t, Refused(403, PhoneTaken))
    else
      var m := Member(t.nextId, nama.value, noTelepon.value);
      (Table(t.rows[t.nextId := m], t.nextId + 1), Done(200, m))
  }

  /** `updateMember`: both fields are required; the handler does not look at
      the phone number again, so a number another member holds is refused
      only by the store's unique index, with a 500. */
  function Update(t: Table<Member>, id: int, nama: Field, noTelepon: Field): (out: (Table<Member>, Reply<Member>))
    ensures out.1.Refused? ==> out.0 == t
    ensures !Filled(nama) || !Filled(noTelepon) <==> out.1 == Refused(403, MissingFields)
    ensures out.1 != Refused(403, PhoneTaken)
    ensures Filled(nama) && Filled(noTelepon) && id in t.rows && PhoneHeldByOther(t.rows, id, noTelepon.value) ==>
              out.1 == Refused(500, ServerError)
    ensures Filled(nama) && Filled(noTelepon) && id !in t.rows ==> out.1 == Refused(500, ServerError)
    ensures out.1.Done? <==>
              Filled(nama) && Filled(noTelepon) && id in t.rows && !PhoneHeldByOther(t.rows, id, noTelepon.value)
    ensures out.1.Done? ==>
              out.1 == Done(200, Member(id, nama.value, noTelepon.value)) &&
              out.0 == Table(t.rows[id := out.1.value], t.nextId) && id in t.rows
  {
    if !Filled(nama) || !Filled(noTelepon) then (t, Refused(403, MissingFields))
    else if id !in t.rows || PhoneHeldByOther(t.rows, id, noTelepon.value) then (t, Refused(500, ServerError))
    else
      var m := Member(id, nama.value, noTelepon.value);
      (Table(t.rows[id := m], t.nextId), Done(200, m))
  }

  /** `deleteMember`: removes the row and answers with it; a missing row
      makes the store throw. */
  function Delete(t: Table<Member>, id: int): (out: (Table<Member>, Reply<Member>))
    ensures out.1.Refused? <==> id !in t.rows
    ensures out.1.Refused? ==> out == (t, Refused(500, ServerError))
    ensures out.1.Done? ==>
              out.1.status == 200 && out.1.value == t.rows[id] &&
              out.0.rows.Keys == t.rows.Keys - {id} && out.0.nextId == t.nextId &&
              forall k :: k in out.0.rows ==> out.0.rows[k] == t.rows[k]
  {
    if id !in t.rows then (t, Refused(500, ServerError))
    else (Table(t.rows - {id}, t.nextId), Done(200, t.rows[id]))
  }

  /** A successful create adds exactly one member, under a fresh id. */
  lemma CreateAddsOne(t: Table<Member>, nama: Field, noTelepon: Field)
    requires Valid(t)
    requires Create(t, nama, noTelepon).1.Done?
    ensures t.nextId !in t.rows
    ensures |Create(t, nama, noTelepon).0.rows| == |t.rows| + 1
  {
    assert t.nextId !in t.rows;
  }

  /** Every handler keeps the ids in place and the phone numbers unique. */
  lemma CreateKeepsValid(t: Table<Member>, nama: Field, noTelepon: Field)
    requires Valid(t)
    ensures Valid(Create(t, nama, noTelepon).0)
  {
  }

  lemma UpdateKeepsValid(t: Table<Member>, id: int, nama: Field, noTelepon: Field)
    requires Valid(t)
    ensures Valid(Update(t, id, nama, noTelepon).0)
  {
  }

  lemma DeleteKeepsValid(t: Table<Member>, id: int)
    requires Valid(t)
    ensures Valid(Delete(t, id).0)
  {
  }

  /** The member table as the handlers see it. */
  class MemberTable {
    var rows: map<int, Member>
    var nextId: int

    function State(): Table<Member>
      reads this
    {
      Table(rows, nextId)
    }

    constructor (t: Table<Member>)
      ensures State() == t
    {
      rows, nextId := t.rows, t.nextId;
    }

    method CreateMember(nama: Field, noTelepon: Field) returns (r: Reply<Member>)
      modifies this
      ensures (State(), r) == Create(old(State()), nama, noTelepon)
    {
      if !Filled(nama) || !Filled(noTelepon) {
        return Refused(403, MissingFields);
      }
      if PhoneInUse(rows, noTelepon.value) {
        return Refused(403, PhoneTaken);
      }
      var m := Member(nextId, nama.value, noTelepon.value);
      rows := rows[nextId := m];
      nextId := nextId + 1;
      r := Done(200, m);
    }

    method UpdateMember(id: int, nama: Field, noTelepon: Field) returns (r: Reply<Member>)
      modifies this
      ensures (State(), r) == Update(old(State()), id, nama, noTelepon)
    {
      if !Filled(nama) || !Filled(noTelepon) {
        return Refused(403, MissingFields);
      }
      if id !in rows || PhoneHeldByOther(rows, id, noTelepon.value) {
        return Refused(500, ServerError);
      }
      var m := Member(id, nama.value, noTelepon.value);
      rows := rows[id := m];
      r := Done(200, m);
    }

    method DeleteMember(id: int) returns (r: Reply<Member>)
      modifies this
      ensures (State(), r) == Delete(old(State()), id)
    {
      if id !in rows {
        return Refused(500, ServerError);
      }
      r := Done(200, rows[id]);
      rows := rows - {id};
    }
  }
}
