/** The category handlers: a name is all a category has. */
module KategoriCrud {
  import opened Common
  import opened Schema

  const MissingName := "Nama kategori harus diisi!"
  /** The 500 message of create and update, spelled differently from delete's. */
  const WriteError := "internal server error"

  /** `createKategori`: the name is required (answered with 404); the new
      category is returned with 201. */
  function Create(t: Table<Kategori>, nama: Field): (out: (Table<Kategori>, Reply<Kategori>))
    ensures !Filled(nama) <==> out.1.Refused?
    ensures out.1.Refused? ==> out == (t, Refused(404, MissingName))
    ensures out.1.Done? ==>
              out.1 == Done(201, Kategori(t.nextId, nama.value)) &&
              out.0 == Table(t.rows[t.nextId := out.1.value], t.nextId + 1)
  {
    if !Filled(nama) then (t, Refused(404, MissingName))
    else
      var k := Kategori(t.nextId, nama.value);
      (Table(t.rows[t.nextId := k], t.nextId + 1), Done(201, k))
  }

  /** `updateKategori`: renames the target and answers 201 without data. */
  function Update(t: Table<Kategori>, id: int, nama: Field): (out: (Table<Kategori>, Reply<()>))
    ensures out.1.Refused? ==> out.0 == t
    ensures !Filled(nama) <==> out.1 == Refused(404, MissingName)
    ensures Filled(nama) && id !in t.rows <==> out.1 == Refused(500, WriteError)
    ensures out.1.Done? <==> Filled(nama) && id in t.rows
    ensures out.1.Done? ==>
              out.1.status == 201 && id in t.rows &&
              out.0 == Table(t.rows[id := Kategori(id, nama.value)], t.nextId)
  {
    if !Filled(nama) then (t, Refused(404, MissingName))
    else if id !in t.rows then (t, Refused(500, WriteError))
    else (Table(t.rows[id := Kategori(id, nama.value)], t.nextId), Done(201, ()))
  }

  /** `deleteKategori`: removes the target and answers 201 with it. */
  function Delete(t: Table<Kategori>, id: int): (out: (Table<Kategori>, Reply<Kategori>))
    ensures out.1.Refused? <==> id !in t.rows
    ensures out.1.Refused? ==> out == (t, Refused(500, ServerError))
    ensures out.1.Done? ==>
              out.1.status == 201 && out.1.value == t.rows[id] &&
              out.0.rows.Keys == t.rows.Keys - {id} && out.0.nextId == t.nextId &&
              forall k :: k in out.0.rows ==> out.0.rows[k] == t.rows[k]
  {
    if id !in t.rows then (t, Refused(500, ServerError))
    else (Table(t.rows - {id}, t.nextId), Done(201, t.rows[id]))
  }

  /** A create followed by an update of the new row with another name leaves
      one category holding the second name. */
  lemma CreateThenRename(t: Table<Kategori>, first: string, second: string)
    requires WellKeyed(t, KategoriId)
    requires first != "" && second != ""
    ensures var created := Create(t, Some(first)).0;
            var renamed := Update(created, t.nextId, Some(second));
            renamed.1.Done? &&
            renamed.0.rows == t.rows[t.nextId := Kategori(t.nextId, second)] &&
            |renamed.0.rows| == |t.rows| + 1
  {
    assert t.nextId !in t.rows;
  }

  lemma CreateKeepsKeys(t: Table<Kategori>, nama: Field)
    requires WellKeyed(t, KategoriId)
    ensures WellKeyed(Create(t, nama).0, KategoriId)
  {
  }

  lemma UpdateKeepsKeys(t: Table<Kategori>, id: int, nama: Field)
    requires WellKeyed(t, KategoriId)
    ensures WellKeyed(Update(t, id, nama).0, KategoriId)
  {
  }

  lemma DeleteKeepsKeys(t: Table<Kategori>, id: int)
    requires WellKeyed(t, KategoriId)
    ensures WellKeyed(Delete(t, id).0, KategoriId)
  {
  }

  /** The category table as the handlers see it. */
  class KategoriTable {
    var rows: map<int, Kategori>
    var nextId: int

    function State(): Table<Kategori>
      reads this
    {
      Table(rows, nextId)
    }

    constructor (t: Table<Kategori>)
      ensures State() == t
    {
      rows, nextId := t.rows, t.nextId;
    }

    method CreateKategori(nama: Field) returns (r: Reply<Kategori>)
      modifies this
      ensures (State(), r) == Create(old(State()), nama)
    {
      if !Filled(nama) {
        return Refused(404, MissingName);
      }
      var k := Kategori(nextId, nama.value);
      rows := rows[nextId := k];
      nextId := nextId + 1;
      r := Done(201, k);
    }

    method UpdateKategori(id: int, nama: Field) returns (r: Reply<()>)
      modifies this
      ensures (State(), r) == Update(old(State()), id, nama)
    {
      if !Filled(nama) {
        return Refused(404, MissingName);
      }
      if id !in rows {
        return Refused(500, WriteError);
      }
      rows := rows[id := Kategori(id, nama.value)];
      r := Done(201, ());
    }

    method DeleteKategori(id: int) returns (r: Reply<Kategori>)
      modifies this
      ensures (State(), r) == Delete(old(State()), id)
    {
      if id !in rows {
        return Refused(500, ServerError);
      }
      r := Done(201, rows[id]);
      rows := rows - {id};
    }
  }
}
