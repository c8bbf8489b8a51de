/** The product handlers: create and update take a multipart body whose
    numeric fields arrive as text, plus an optional uploaded image. */
module ProdukCrud {
  import opened Common
  import opened Schema

  const MissingFields := "Semua fields harus diisi!"
  const NotFound := "produk dengan id tersebut tidak ditemukan"
  const DefaultImage := "default.png"

  /** The four required fields of the product form. */
  predicate AllGiven(nama: Field, harga: Field, stok: Field, kategoriId: Field) {
    Filled(nama) && Filled(harga) && Filled(stok) && Filled(kategoriId)
  }

  /** `Number()` of the three numeric fields succeeds for each. */
  predicate Numeric(harga: Field, stok: Field, kategoriId: Field) {
    ToNumber(harga).Some? && ToNumber(stok).Some? && ToNumber(kategoriId).Some?
  }

  /** The row the handlers write for product `id`, with its numeric fields
      converted by `Number()`. */
  function RowOf(id: int, nama: Field, harga: Field, stok: Field, kategoriId: Field, gambar: string): (p: Produk)
    requires Filled(nama) && Numeric(harga, stok, kategoriId)
    ensures p.id == id && p.nama == nama.value && p.gambar == gambar
    ensures p.harga == ToNumber(harga).value as real
    ensures Some(p.stok) == ToNumber(stok) && Some(p.kategoriId) == ToNumber(kategoriId)
  {
    Produk(id, nama.value, ToNumber(harga).value as real, ToNumber(stok).value, ToNumber(kategoriId).value, gambar)
  }

  /** `createProduk`: the image is the uploaded file's name, or the default
      image; four fields are required; a text that is not a number makes
      the store reject the row. */
  function Create(t: Table<Produk>, nama: Field, harga: Field, stok: Field, kategoriId: Field, file: Option<string>)
    : (out: (Table<Produk>, Reply<Produk>))
    ensures out.1.Refused? ==> out.0 == t
    ensures !AllGiven(nama, harga, stok, kategoriId) <==> out.1 == Refused(403, MissingFields)
    ensures AllGiven(nama, harga, stok, kategoriId) && !Numeric(harga, stok, kategoriId) <==>
              out.1 == Refused(500, ServerError)
    ensures out.1.Done? <==> AllGiven(nama, harga, stok, kategoriId) && Numeric(harga, stok, kategoriId)
    ensures out.1.Done? ==>
              out.1.status == 200 && out.1.value.id == t.nextId && out.1.value.nama == nama.value &&
              Some(out.1.value.stok) == ToNumber(stok) &&
              Some(out.1.value.kategoriId) == ToNumber(kategoriId) &&
              out.1.value.harga == ToNumber(harga).value as real &&
              out.1.value.gambar == (if file.Some? then file.value else DefaultImage) &&
              out.0 == Table(t.rows[t.nextId := out.1.value], t.nextId + 1)
  {
    var gambar := if file.Some? then file.value else DefaultImage;
    if !AllGiven(nama, harga, stok, kategoriId) then (t, Refused(403, MissingFields))
    else if !Numeric(harga, stok, kategoriId) then (t, Refused(500, ServerError))
    else
      var p := RowOf(t.nextId, nama, harga, stok, kategoriId, gambar);
      (Table(t.rows[t.nextId := p], t.nextId + 1), Done(200, p))
  }

  /** `updateProduk`: the old row is read first so that, without an upload,
      the image stays; the fields are then checked and the row overwritten. */
  function Update(t: Table<Produk>, id: int, nama: Field, harga: Field, stok: Field, kategoriId: Field,
                  file: Option<string>): (out: (Table<Produk>, Reply<Produk>))
    ensures out.1.Refused? ==> out.0 == t
    ensures !AllGiven(nama, harga, stok, kategoriId) <==> out.1 == Refused(403, MissingFields)
    ensures AllGiven(nama, harga, stok, kategoriId) && (id !in t.rows || !Numeric(harga, stok, kategoriId)) <==>
              out.1 == Refused(500, ServerError)
    ensures out.1.Done? <==> AllGiven(nama, harga, stok, kategoriId) && id in t.rows && Numeric(harga, stok, kategoriId)
    ensures out.1.Done? ==>
              id in t.rows && out.1.status == 200 && out.1.value.id == id &&
              out.1.value.nama == nama.value &&
              Some(out.1.value.stok) == ToNumber(stok) &&
              Some(out.1.value.kategoriId) == ToNumber(kategoriId) &&
              out.1.value.harga == ToNumber(harga).value as real &&
              out.1.value.gambar == (if file.Some? then file.value else t.rows[id].gambar) &&
              out.0 == Table(t.rows[id := out.1.value], t.nextId)
  {
    var oldData := if id in t.rows then Some(t.rows[id]) else None;
    if !AllGiven(nama, harga, stok, kategoriId) then (t, Refused(403, MissingFields))
    else if oldData.None? || !Numeric(harga, stok, kategoriId) then (t, Refused(500, ServerError))
    else
      var gambar := if file.Some? then file.value else oldData.value.gambar;
      var p := RowOf(id, nama, harga, stok, kategoriId, gambar);
      (Table(t.rows[id := p], t.nextId), Done(200, p))
  }

  /** `deleteProduk`: a missing product is answered with 404 before the
      delete is tried. */
  function Delete(t: Table<Produk>, id: int): (out: (Table<Produk>, Reply<Produk>))
    ensures out.1.Refused? <==> id !in t.rows
    ensures out.1.Refused? ==> out == (t, Refused(404, NotFound))
    ensures out.1.Done? ==>
              out.1.status == 200 && out.1.value == t.rows[id] &&
              out.0.rows.Keys == t.rows.Keys - {id} && out.0.nextId == t.nextId &&
              forall k :: k in out.0.rows ==> out.0.rows[k] == t.rows[k]
  {
    if id !in t.rows then (t, Refused(404, NotFound))
    else (Table(t.rows - {id}, t.nextId), Done(200, t.rows[id]))
  }

  lemma CreateKeepsKeys(t: Table<Produk>, nama: Field, harga: Field, stok: Field, kategoriId: Field, file: Option<string>)
    requires WellKeyed(t, ProdukId)
    ensures WellKeyed(Create(t, nama, harga, stok, kategoriId, file).0, ProdukId)
    ensures Create(t, nama, harga, stok, kategoriId, file).1.Done? ==>
              |Create(t, nama, harga, stok, kategoriId, file).0.rows| == |t.rows| + 1
  {
    assert t.nextId !in t.rows;
  }

  lemma UpdateKeepsKeys(t: Table<Produk>, id: int, nama: Field, harga: Field, stok: Field, kategoriId: Field,
                        file: Option<string>)
    requires WellKeyed(t, ProdukId)
    ensures WellKeyed(Update(t, id, nama, harga, stok, kategoriId, file).0, ProdukId)
  {
  }

  lemma DeleteKeepsKeys(t: Table<Produk>, id: int)
    requires WellKeyed(t, ProdukId)
    ensures WellKeyed(Delete(t, id).0, ProdukId)
  {
  }

  /** Sending the form again without a file leaves the image alone, so an
      update without upload after an update with one keeps the uploaded
      image. */
  lemma ImageSurvivesUpdates(t: Table<Produk>, id: int, nama: Field, harga: Field, stok: Field, kategoriId: Field,
                             file: string)
    requires Update(t, id, nama, harga, stok, kategoriId, Some(file)).1.Done?
    ensures var t' := Update(t, id, nama, harga, stok, kategoriId, Some(file)).0;
            var again := Update(t', id, nama, harga, stok, kategoriId, None);
            again.1.Done? && again.1.value.gambar == file && again.0 == t'
  {
  }

  /** The product table as the handlers see it. */
  class ProdukTable {
    var rows: map<int, Produk>
    var nextId: int

    function State(): Table<Produk>
      reads this
    {
      Table(rows, nextId)
    }

    constructor (t: Table<Produk>)
      ensures State() == t
    {
      rows, nextId := t.rows, t.nextId;
    }

    method CreateProduk(nama: Field, harga: Field, stok: Field, kategoriId: Field, file: Option<string>)
      returns (r: Reply<Produk>)
      modifies this
      ensures (State(), r) == Create(old(State()), nama, harga, stok, kategoriId, file)
    {
      var gambar := if file.Some? then file.value else DefaultImage;
      if !AllGiven(nama, harga, stok, kategoriId) {
        return Refused(403, MissingFields);
      }
      if !Numeric(harga, stok, kategoriId) {
        return Refused(500, ServerError);
      }
      var p := RowOf(nextId, nama, harga, stok, kategoriId, gambar);
      rows := rows[nextId := p];
      nextId := nextId + 1;
      r := Done(200, p);
    }

    method UpdateProduk(id: int, nama: Field, harga: Field, stok: Field, kategoriId: Field, file: Option<string>)
      returns (r: Reply<Produk>)
      modifies this
      ensures (State(), r) == Update(old(State()), id, nama, harga, stok, kategoriId, file)
    {
      var oldData := if id in rows then Some(rows[id]) else None;
      var gambar := if file.Some? then Some(file.value) else if oldData.Some? then Some(oldData.value.gambar) else None;
      if !AllGiven(nama, harga, stok, kategoriId) {
        return Refused(403, MissingFields);
      }
      if id !in rows || !Numeric(harga, stok, kategoriId) {
        return Refused(500, ServerError);
      }
      var p := RowOf(id, nama, harga, stok, kategoriId, gambar.value);
      rows := rows[id := p];
      r := Done(200, p);
    }

    method DeleteProduk(id: int) returns (r: Reply<Produk>)
      modifies this
      ensures (State(), r) == Delete(old(State()), id)
    {
      if id !in rows {
        return Refused(404, NotFound);
      }
      r := Done(200, rows[id]);
      rows := rows - {id};
    }
  }
}
