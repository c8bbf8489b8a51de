/** The voucher handlers. Dates arrive as text and are read with
    `new Date(text)`, given here as the parameter `parseDate` (a timestamp
    in milliseconds, or `None` for an invalid date). */
module DiskonCrud {
  import opened Common
  import opened Schema

  const MissingFields := "Semua fields wajib diisi!"
  const MissingName := "Nama wajib diisi"
  const Active := "AKTIF"

  /** `new Date(f)` on a body field: an absent field is an invalid date. */
  function DateOf(f: Field, parseDate: string -> Option<int>): (r: Option<int>)
    ensures f.None? ==> r.None?
    ensures f.Some? ==> r == parseDate(f.value)
  {
    if f.None? then None else parseDate(f.value)
  }

  /** The four values the store needs converted: both numbers and both dates. */
  predicate Convertible(persen: Field, minTransaksi: Field, mulai: Field, akhir: Field,
                        parseDate: string -> Option<int>) {
    ToNumber(persen).Some? && ToNumber(minTransaksi).Some? &&
    DateOf(mulai, parseDate).Some? && DateOf(akhir, parseDate).Some?
  }

  /** The voucher row written for `id`, with the given status. */
  function RowOf(id: int, nama: string, persen: Field, minTransaksi: Field, mulai: Field, akhir: Field,
                 parseDate: string -> Option<int>, status: string): (d: Diskon)
    requires Convertible(persen, minTransaksi, mulai, akhir, parseDate)
    ensures d.id == id && d.nama == nama && d.status == status
    ensures Some(d.persen) == ToNumber(persen) && Some(d.minTransaksi) == ToNumber(minTransaksi)
    ensures Some(d.tanggalMulai) == DateOf(mulai, parseDate) && Some(d.tanggalAkhir) == DateOf(akhir, parseDate)
  {
    Diskon(id, nama, ToNumber(persen).value, ToNumber(minTransaksi).value,
           DateOf(mulai, parseDate).value, DateOf(akhir, parseDate).value, status)
  }

  /** `createDiskon`: all five fields are required, and a new voucher is
      always active. */
  function Create(t: Table<Diskon>, nama: Field, persen: Field, minTransaksi: Field, mulai: Field, akhir: Field,
                  parseDate: string -> Option<int>): (out: (Table<Diskon>, Reply<Diskon>))
    ensures out.1.Refused? ==> out.0 == t
    ensures !(Filled(nama) && Filled(persen) && Filled(minTransaksi) && Filled(mulai) && Filled(akhir)) <==>
              out.1 == Refused(400, MissingFields)
    ensures out.1.Done? <==>
              Filled(nama) && Filled(persen) && Filled(minTransaksi) && Filled(mulai) && Filled(akhir) &&
              Convertible(persen, minTransaksi, mulai, akhir, parseDate)
    ensures out.1.Refused? && out.1.status != 400 ==> out.1 == Refused(500, ServerError)
    ensures out.1.Done? ==>
              out.1.status == 201 && out.1.value.status == Active &&
              out.1.value.id == t.nextId && out.1.value.nama == nama.value &&
              Some(out.1.value.persen) == ToNumber(persen) &&
              Some(out.1.value.minTransaksi) == ToNumber(minTransaksi) &&
              Some(out.1.value.tanggalMulai) == parseDate(mulai.value) &&
              Some(out.1.value.tanggalAkhir) == parseDate(akhir.value) &&
              out.0 == Table(t.rows[t.nextId := out.1.value], t.nextId + 1)
  {
    if !(Filled(nama) && Filled(persen) && Filled(minTransaksi) && Filled(mulai) && Filled(akhir)) then
      (t, Refused(400, MissingFields))
    else if !Convertible(persen, minTransaksi, mulai, akhir, parseDate) then (t, Refused(500, ServerError))
    else
      var d := RowOf(t.nextId, nama.value, persen, minTransaksi, mulai, akhir, parseDate, Active);
      (Table(t.rows[t.nextId := d], t.nextId + 1), Done(201, d))
  }

  /** `updateDiskon`: only the name is checked by the handler; the other four
      values are converted whatever they are, so an absent one makes the
      store throw rather than the handler answer 400. The status stays. */
  function Update(t: Table<Diskon>, id: int, nama: Field, persen: Field, minTransaksi: Field, mulai: Field,
                  akhir: Field, parseDate: string -> Option<int>): (out: (Table<Diskon>, Reply<Diskon>))
    ensures out.1.Refused? ==> out.0 == t
    ensures !Filled(nama) <==> out.1 == Refused(400, MissingName)
    ensures out.1.Refused? && out.1.status != 400 ==> out.1 == Refused(500, ServerError)
    ensures out.1.Done? <==> Filled(nama) && id in t.rows && Convertible(persen, minTransaksi, mulai, akhir, parseDate)
    ensures out.1.Done? ==>
              out.1.status == 201 && out.1.value.status == t.rows[id].status &&
              out.1.value.id == id && out.1.value.nama == nama.value &&
              Some(out.1.value.persen) == ToNumber(persen) &&
              Some(out.1.value.minTransaksi) == ToNumber(minTransaksi) &&
              Some(out.1.value.tanggalMulai) == parseDate(mulai.value) &&
              Some(out.1.value.tanggalAkhir) == parseDate(akhir.value) &&
              out.0 == Table(t.rows[id := out.1.value], t.nextId)
  {
    if !Filled(nama) then (t, Refused(400, MissingName))
    else if id !in t.rows || !Convertible(persen, minTransaksi, mulai, akhir, parseDate) then
      (t, Refused(500, ServerError))
    else
      var d := RowOf(id, nama.value, persen, minTransaksi, mulai, akhir, parseDate, t.rows[id].status);
      (Table(t.rows[id := d], t.nextId), Done(201, d))
  }

  /** `deleteDiskon`: answers without data; a missing row makes the store throw. */
  function Delete(t: Table<Diskon>, id: int): (out: (Table<Diskon>, Reply<()>))
    ensures out.1.Refused? <==> id !in t.rows
    ensures out.1.Refused? ==> out == (t, Refused(500, ServerError))
    ensures out.1.Done? ==>
              out.1.status == 200 &&
              out.0.rows.Keys == t.rows.Keys - {id} && out.0.nextId == t.nextId &&
              forall k :: k in out.0.rows ==> out.0.rows[k] == t.rows[k]
  {
    if id !in t.rows then (t, Refused(500, ServerError))
    else (Table(t.rows - {id}, t.nextId), Done(200, ()))
  }

  /** Every voucher is active: creates add active rows, updates keep each
      row's status, deletes only remove rows. */
  predicate AllActive(t: Table<Diskon>) {
    forall id :: id in t.rows ==> t.rows[id].status == Active
  }

  lemma CreateKeepsActive(t: Table<Diskon>, nama: Field, persen: Field, minTransaksi: Field, mulai: Field,
                          akhir: Field, parseDate: string -> Option<int>)
    requires AllActive(t) && WellKeyed(t, DiskonId)
    ensures AllActive(Create(t, nama, persen, minTransaksi, mulai, akhir, parseDate).0)
    ensures WellKeyed(Create(t, nama, persen, minTransaksi, mulai, akhir, parseDate).0, DiskonId)
  {
  }

  lemma UpdateKeepsActive(t: Table<Diskon>, id: int, nama: Field, persen: Field, minTransaksi: Field,
                          mulai: Field, akhir: Field, parseDate: string -> Option<int>)
    requires AllActive(t) && WellKeyed(t, DiskonId)
    ensures AllActive(Update(t, id, nama, persen, minTransaksi, mulai, akhir, parseDate).0)
    ensures WellKeyed(Update(t, id, nama, persen, minTransaksi, mulai, akhir, parseDate).0, DiskonId)
  {
  }

  lemma DeleteKeepsActive(t: Table<Diskon>, id: int)
    requires AllActive(t) && WellKeyed(t, DiskonId)
    ensures AllActive(Delete(t, id).0)
    ensures WellKeyed(Delete(t, id).0, DiskonId)
  {
  }

  /** An update that sends only the name passes the handler's check and is
      then refused by the store. */
  lemma NameOnlyUpdateFails(t: Table<Diskon>, id: int, nama: string, parseDate: string -> Option<int>)
    requires nama != ""
    ensures Update(t, id, Some(nama), None, None, None, None, parseDate) == (t, Refused(500, ServerError))
  {
  }

  /** The voucher table as the handlers see it. */
  class DiskonTable {
    var rows: map<int, Diskon>
    var nextId: int

    function State(): Table<Diskon>
      reads this
    {
      Table(rows, nextId)
    }

    constructor (t: Table<Diskon>)
      ensures State() == t
    {
      rows, nextId := t.rows, t.nextId;
    }

    method CreateDiskon(nama: Field, persen: Field, minTransaksi: Field, mulai: Field, akhir: Field,
                        parseDate: string -> Option<int>) returns (r: Reply<Diskon>)
      modifies this
      ensures (State(), r) == Create(old(State()), nama, persen, minTransaksi, mulai, akhir, parseDate)
    {
      if !Filled(nama) || !Filled(persen) || !Filled(minTransaksi) || !Filled(mulai) || !Filled(akhir) {
        return Refused(400, MissingFields);
      }
      if !Convertible(persen, minTransaksi, mulai, akhir, parseDate) {
        return Refused(500, ServerError);
      }
      var d := RowOf(nextId, nama.value, persen, minTransaksi, mulai, akhir, parseDate, Active);
      rows := rows[nextId := d];
      nextId := nextId + 1;
      r := Done(201, d);
    }

    method UpdateDiskon(id: int, nama: Field, persen: Field, minTransaksi: Field, mulai: Field, akhir: Field,
                        parseDate: string -> Option<int>) returns (r: Reply<Diskon>)
      modifies this
      ensures (State(), r) == Update(old(State()), id, nama, persen, minTransaksi, mulai, akhir, parseDate)
    {
      if !Filled(nama) {
        return Refused(400, MissingName);
      }
      if id !in rows || !Convertible(persen, minTransaksi, mulai, akhir, parseDate) {
        return Refused(500, ServerError);
      }
      var d := RowOf(id, nama.value, persen, minTransaksi, mulai, akhir, parseDate, rows[id].status);
      rows := rows[id := d];
      r := Done(201, d);
    }

    method DeleteDiskon(id: int) returns (r: Reply<()>)
      modifies this
      ensures (State(), r) == Delete(old(State()), id)
    {
      if id !in rows {
        return Refused(500, ServerError);
      }
      rows := rows - {id};
      r := Done(200, ());
    }
  }
}
