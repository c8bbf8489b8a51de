/** Rows of the point-of-sale database tables, as the handlers read and
    write them. Every row carries its own id, which is also its key in the
    table maps. */
module Schema {
  import opened Common

  datatype Role = Admin | Kasir

  /** The text a role is written as in the user table and in tokens. */
  function RoleName(r: Role): string {
    match r
    case Admin => "ADMIN"
    case Kasir => "KASIR"
  }

  datatype Kategori = Kategori(id: int, nama: string)

  datatype Produk = Produk(id: int, nama: string, harga: real, stok: int, kategoriId: int, gambar: string)

  datatype Member = Member(id: int, nama: string, noTelepon: string)

  /** A voucher. Its dates are timestamps in milliseconds. */
  datatype Diskon = Diskon(
    id: int, nama: string, persen: int, minTransaksi: int,
    tanggalMulai: int, tanggalAkhir: int, status: string)

  datatype User = User(id: int, nama: string, username: string, password: string, role: Role)

  /** A sale. `tglTransaksi` is a timestamp in milliseconds. */
  datatype Transaksi = Transaksi(
    id: int, kasirId: int, memberId: Option<int>, diskonId: Option<int>,
    total: real, bayar: real, kembali: real, tglTransaksi: int)

  /** One sold line of a sale. The unit price is not stored. */
  datatype DetailTransaksi = DetailTransaksi(transaksiId: int, produkId: int, qty: int, subTotal: real)

  function TotalOf(t: Transaksi): real { t.total }

  function KategoriId(k: Kategori): int { k.id }

  function ProdukId(p: Produk): int { p.id }

  function MemberId(m: Member): int { m.id }

  function DiskonId(d: Diskon): int { d.id }

  function UserId(u: User): int { u.id }

  function SubTotalOf(d: DetailTransaksi): real { d.subTotal }

  /** A table with an autoincrement key: its rows by id, and the id the next
      insert receives. */
  datatype Table<T> = Table(rows: map<int, T>, nextId: int)

  /** Every row is stored under its own id, and every id in use lies below
      the next id to be handed out. */
  predicate WellKeyed<T>(t: Table<T>, key: T -> int) {
    forall id :: id in t.rows ==> key(t.rows[id]) == id && id < t.nextId
  }
}
