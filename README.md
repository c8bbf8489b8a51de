# A point-of-sale back office, modelled in Dafny

The system is a point-of-sale application for a shop. Cashiers (KASIR) ring up sales at a till page. Administrators (ADMIN) keep the catalogue, the categories, the members, the vouchers (diskon) and the cashier accounts, and they read the reports.

The model covers the following parts of the code:

- **Checkout** (`transaksi.dfy`): the `createTransaksi` handler.
  - It rejects an empty cart.
  - It validates each line against the stock its product has before the checkout.
  - It prices the lines and sums them into a gross total.
  - It takes 5% of the gross total off for a member.
  - It takes a voucher's percentage off what is left, but only when the gross total reaches the voucher's minimum.
  - It refuses underpayment.
  - It commits the sale, its detail rows and the stock decrements as one unit.

  The handler is modelled twice. `Checkout` is a function from tables to tables and a reply. `Store.CreateTransaksi` is a method on a class holding the tables, proved to do what `Checkout` says.
- **The till page** (`cart.dfy`):
  - the cart operations `addToCart`, `updateQty` and `removeItem`, with the invariant "one line per product, each with at least one unit";
  - the subtotal and voucher estimate;
  - the request body that `handleCheckout` sends;
  - the catalogue filter.
- **Reports** (`laporan.dfy`):
  - the sales report for a period;
  - the stock report;
  - the figures of the admin dashboard: count, net sum, discount given, the five best sellers and the five lowest stocks.
- **Access control** (`auth.dfy`): how `authToken` extracts the bearer token from the `Authorization` header and branches, and the `authRole` membership check. JWT verification is a parameter `verify`.
- **Table handlers** (`member.dfy`, `kasir.dfy`, `produk.dfy`, `diskon.dfy`, `kategori.dfy`): create, update and delete on one table each.
  - Each handler is a function from a `Table` (rows by id plus the next autoincrement id) to a new table and a reply.
  - Each table is also a class whose methods update its `rows` map in place. Every method is proved equal to its function.
  - Every refusal leaves the table unchanged.

Shared parts:

- `common.dfy`:
  - `Option`, `Result` and `Reply`;
  - request-body fields and their JavaScript truthiness;
  - `Number()` on a text field;
  - a left-fold sum with its algebra (append, remove, update, permutation).
- `sorting.dfy`: a stable insertion sort by a real key, `Take`, `Where` (filter) and `Lowest` (the n smallest).
- `schema.dfy`: the table rows and the generic `Table`.

Conventions of the model:

- Money is `real`.
- Stock and quantities are `int`.
- Timestamps are milliseconds.
- Route `:id` parameters are integers.
- A request-body field is `Option<string>`: absent, or the text sent.
- Every error the database would throw becomes a 500 reply:
  - an update or delete of a missing row;
  - a number that is not a number;
  - an invalid date;
  - an invalid role name, under the role set assumed below;
  - a violated unique index, under the unique columns assumed below.
- No schema file is part of this model. The handlers only use `findFirst`, and `updateKasir` passes `role` through unchecked (`kasirController.ts:56-66`). The unique member phone number, the unique username and the role set {ADMIN, KASIR} are assumed, because no schema file is available: they are not read from the code.

Where the handlers disagree with the rest of the program, the model follows the handlers:

- `createKasir` stores the password exactly as sent (`kasirController.ts:31-38`). Registration hashes passwords with bcrypt (`authController.ts:16`), and login checks them with `bcrypt.compare` (`authController.ts:46`). A cashier created through `createKasir` therefore cannot log in.
- The duplicate check in `createKasir` compares `nama`, not `username`. A taken username is refused only by the store's assumed unique index, with a 500 (`KasirCrud.Create`).
- `updateMember` does not check the phone number again. A number held by another member is refused by the assumed unique index with a 500, never with the 403 that create gives (`MemberCrud.Update`).

## Model

| member | source | states |
|---|---|---|
| Common.ToNumber | backend/src/controllers/produkController.ts:29-31 | `Number()` of a field: absent is NaN (`None`), empty text is 0, a text of digits is its non-negative value, any other text is NaN |
| Common.DecimalRoundTrip | backend/src/controllers/produkController.ts:29-31 | writing a natural number in decimal and reading it back with `Number()` gives the number |
| Common.SumByPermutation | backend/src/controllers/transaksiController.ts:46-49 | a `reduce` sum does not depend on the order of the rows |
| Transaksi.ReadItem | backend/src/controllers/transaksiController.ts:22 | an item is read through the keys `id` and `quantity`; it is read exactly when both are present |
| Transaksi.Lines | backend/src/controllers/transaksiController.ts:22-46 | validation succeeds iff every line's product exists and its pre-checkout stock covers the line; each detail line has the product's current price and subtotal price × quantity |
| Transaksi.LinesFirstFailure | backend/src/controllers/transaksiController.ts:22-46 | on failure, the message is that of the first failing line in cart order, and every line before it passes |
| Transaksi.LinesFailureExtends | backend/src/controllers/transaksiController.ts:28-34 | once a prefix of the cart fails, the whole cart fails with the same message |
| Transaksi.GrossOrderIndependent | backend/src/controllers/transaksiController.ts:46-49 | the gross total is the same for every order in which the lookups push their lines |
| Transaksi.FinalTotal | backend/src/controllers/transaksiController.ts:50-74 | with a non-negative gross and voucher percentage, the final total is at most the gross; with a percentage of at most 100, it is not negative |
| Transaksi.Reduced | backend/src/controllers/transaksiController.ts:71-72 | taking `persen`% off a non-negative amount gives at most the amount, and with `persen` ≤ 100 no less than 0 |
| Transaksi.DiscountStacking | backend/src/controllers/transaksiController.ts:53-74 | member only: gross·0.95; voucher below its minimum: no voucher step; both: gross·0.95·(1 − persen/100) |
| Transaksi.WorkedExample | backend/src/controllers/transaksiController.ts:53-81 | gross 100000 with a member and a 10% voucher (minimum 50000) gives 85500, and paying 90000 leaves 4500 change; a gross of 40000 misses the minimum |
| Transaksi.DetailRows | backend/src/controllers/transaksiController.ts:99-106 | one detail row per line, carrying the sale id, product, quantity and subtotal; the rows' subtotals sum to the gross total |
| Transaksi.Decrement | backend/src/controllers/transaksiController.ts:108-116 | every product's stock drops by the total quantity the cart lists for it; no product is added or removed |
| Transaksi.Checkout | backend/src/controllers/transaksiController.ts:4-131 | a missing or empty `items` gives 403 with no change; with validated lines, a payment below the final total gives 403 "Uang bayar tidak mencukupi"; a paid request without `kasirId` gives 500 "Transaksi Gagal dilakukan", because `Number(undefined)` cannot be stored; every refusal leaves all tables unchanged; a success gives 201 with change = bayar − total ≥ 0 |
| Transaksi.UnavailableLineRefused | backend/src/controllers/transaksiController.ts:24-34 | a missing product or a line its stock does not cover gives 500, with no table changed |
| Transaksi.CheckoutSucceeds | backend/src/controllers/transaksiController.ts:4-122 | success iff the cart is non-empty, every line validates, bayar ≥ final total and `kasirId` is present; the success then appends one sale carrying the final total, appends one detail row per line, lowers each product's stock by its quantity, and changes nothing else |
| Transaksi.CheckoutLedger | backend/src/controllers/transaksiController.ts:84-106 | a paid checkout adds to Σ subTotal − Σ total exactly what its discounts took off the gross |
| Transaksi.GrossNonNegative | backend/src/controllers/transaksiController.ts:49 | lines with non-negative subtotals have a non-negative gross total |
| Transaksi.LedgerStaysNonNegative | backend/src/controllers/transaksiController.ts:49-117 | with non-negative prices, quantities and voucher percentages, a checkout keeps Σ subTotal − Σ total non-negative |
| Transaksi.DistinctLinesKeepStock | backend/src/controllers/transaksiController.ts:32-34 | when no two lines name the same product, a paid checkout leaves no stock negative |
| Transaksi.QtyForDistinct | backend/src/controllers/transaksiController.ts:32-34 | with distinct product ids, the quantity listed for a product is that of its one validated line |
| Transaksi.DuplicateLinesOverdraw | backend/src/controllers/transaksiController.ts:32-34 | two lines of one unit each, for a product with one unit in stock, both pass validation, and the stock ends at −1 |
| Transaksi.NegativeQuantityRestocks | backend/src/controllers/transaksiController.ts:32-34 | a line with a negative quantity passes validation and raises its product's stock |
| Transaksi.QtyForSingle | backend/src/controllers/transaksiController.ts:109-114 | when only one line names a product, that line's quantity is the product's whole decrement |
| Transaksi.QtyForAbsent | backend/src/controllers/transaksiController.ts:109-114 | a product no line names is not decremented |
| Transaksi.Store.CreateTransaksi | backend/src/controllers/transaksiController.ts:4-131 | the handler, step by step on the stored tables: its new state and reply are those of `Checkout` |
| Transaksi.Store.ApplyDiscounts | backend/src/controllers/transaksiController.ts:50-74 | the two discount steps on the gross total give `FinalTotal` of it |
| Transaksi.Store.CommitSale | backend/src/controllers/transaksiController.ts:84-117 | the commit appends the sale and its detail rows, lowers the stock and advances the sale id, as `Commit` describes |
| Transaksi.Store.CollectLines | backend/src/controllers/transaksiController.ts:22-46 | the validation loop pushes exactly the lines of `Lines`, or stops with its error |
| Transaksi.Store.DecrementStock | backend/src/controllers/transaksiController.ts:109-116 | the decrement loop leaves the product table `Decrement` describes |
| Cart.Find | frontend/app/dashboard/transaksi/page.tsx:99 | the index of the first line for the product, or none iff no line holds it |
| Cart.Bump | frontend/app/dashboard/transaksi/page.tsx:105 | the `map` adds one unit to the lines of the product and leaves the others as they were |
| Cart.AddToCart | frontend/app/dashboard/transaksi/page.tsx:95-109 | stock ≤ 0: unchanged; a new product: appended with qty 1; an existing one: its line gains one unit unless it already holds the whole stock |
| Cart.AddPreservesWellFormed | frontend/app/dashboard/transaksi/page.tsx:95-109 | adding keeps the cart's invariant: unique product ids and every qty ≥ 1 |
| Cart.UpdateQty | frontend/app/dashboard/transaksi/page.tsx:111-121 | only the product's line changes, and only when 1 ≤ qty+delta ≤ stok; the invariant is kept |
| Cart.RemoveItem | frontend/app/dashboard/transaksi/page.tsx:123-125 | the filtered cart is never longer than the cart |
| Cart.RemoveItemMembers | frontend/app/dashboard/transaksi/page.tsx:123-125 | the lines kept are exactly those of other products |
| Cart.RemovePreservesWellFormed | frontend/app/dashboard/transaksi/page.tsx:123-125 | removing keeps ids unique and every qty ≥ 1 |
| Cart.RemoveItemAppend | frontend/app/dashboard/transaksi/page.tsx:124 | removal keeps the surviving lines in their original order |
| Cart.RemoveAbsent | frontend/app/dashboard/transaksi/page.tsx:124 | removing a product the cart does not hold changes nothing |
| Cart.RemoveSingle | frontend/app/dashboard/transaksi/page.tsx:124 | in a well-formed cart, removing a product drops exactly its one line |
| Cart.SubtotalAfterAdd | frontend/app/dashboard/transaksi/page.tsx:95-128 | a successful add raises the subtotal by one unit's price |
| Cart.SubtotalAfterRemove | frontend/app/dashboard/transaksi/page.tsx:123-128 | removing a product takes its line total off the subtotal |
| Cart.FindDiskon | frontend/app/dashboard/transaksi/page.tsx:132 | the voucher found is listed and has the id; none iff no listed voucher has it |
| Cart.GrandTotal | frontend/app/dashboard/transaksi/page.tsx:128-137 | the estimate is max(0, subtotal − diskonVal): never negative, at least subtotal − diskonVal, and one of the two; with no voucher selected it is the subtotal (when that is not negative) |
| Cart.EstimateAgreesWhenMinimumMet | frontend/app/dashboard/transaksi/page.tsx:128-137 | without a member and with the minimum reached, the estimate equals the back end's final total |
| Cart.EstimateIgnoresMinimum | frontend/app/dashboard/transaksi/page.tsx:130-137 | below the voucher's minimum, the estimate is less than what the back end charges |
| Cart.EstimateIgnoresMember | frontend/app/dashboard/transaksi/page.tsx:130-137 | with a member, paying the estimate leaves 5% of it as change |
| Cart.SubtotalIsGross | frontend/app/dashboard/transaksi/page.tsx:128 | at unchanged prices, the back end's gross total is the page's subtotal |
| Cart.ItemsOf | frontend/app/dashboard/transaksi/page.tsx:148 | the cart's lines as product id and quantity, one per line |
| Cart.CheckoutPayload | frontend/app/dashboard/transaksi/page.tsx:140-151 | nothing is sent iff the cart is empty; otherwise the selected member and voucher, one `{produkId, qty}` object per line, and the estimate as payment |
| Cart.PayloadKeysMismatch | frontend/app/dashboard/transaksi/page.tsx:148 | the back end finds neither `id` nor `quantity` in any line the page sends |
| Cart.RequestOf | frontend/app/dashboard/transaksi/page.tsx:145-151 | the back end reads the payload's member, voucher and payment unchanged, and finds no `kasirId` in it |
| Cart.TillCheckoutRefused | frontend/app/dashboard/transaksi/page.tsx:145-151 | no checkout the page sends can succeed, however its lines are read: it is refused and no table changes (`transaksiController.ts:88`) |
| Cart.Lower | frontend/app/dashboard/transaksi/page.tsx:178 | lowercasing maps A–Z to a–z and keeps every other character, so the length stays (JavaScript's full Unicode mapping is not modelled) |
| Cart.ContainsAt | frontend/app/dashboard/transaksi/page.tsx:178 | `includes` holds iff the needle occurs at some position |
| Cart.ContainsEmpty | frontend/app/dashboard/transaksi/page.tsx:178 | every name contains the empty search text |
| Cart.FilteredProducts | frontend/app/dashboard/transaksi/page.tsx:177-181 | a product is listed iff its name, lowercased A–Z only, contains the search text lowercased the same way, and the category is 0 or its own |
| Cart.EmptyFilterShowsAll | frontend/app/dashboard/transaksi/page.tsx:177-181 | an empty search with no category shows the whole catalogue in order |
| Laporan.SalesPeriod | backend/src/controllers/laporanController.ts:10-17 | without both dates, the period is today; with both, it runs from the first day's UTC midnight to the last day's 23:59:59.999, and there is no period when a date does not parse |
| Laporan.PeriodCoversWholeDays | backend/src/controllers/laporanController.ts:14-17 | with both dates, a sale is in the period iff it falls between the start of the first day and the start of the day after the last |
| Laporan.SalesIn | backend/src/controllers/laporanController.ts:21-27 | exactly the sales with start ≤ tglTransaksi ≤ end |
| Laporan.GetLaporanPenjualan | backend/src/controllers/laporanController.ts:6-52 | 500 iff the period is invalid; otherwise the rows are a permutation of the sales in the period, newest first, `jumlah_transaksi` is their number and `total_omset` the sum of their totals |
| Laporan.SalesReportListsPeriod | backend/src/controllers/laporanController.ts:21-33 | a sale is listed iff it is stored and in the period |
| Laporan.StatusOf | backend/src/controllers/laporanController.ts:71 | "KRITIS" iff stok < 5, else "Aman" |
| Laporan.KategoriLabel | backend/src/controllers/laporanController.ts:68 | the category's name, or "Tanpa Kategori" when it is missing or empty |
| Laporan.StokAscending | backend/src/controllers/laporanController.ts:56-63 | a permutation of the products in ascending stock |
| Laporan.GetLaporanStok | backend/src/controllers/laporanController.ts:54-83 | one row per product, in ascending stock, with the KRITIS status iff stock < 5 |
| Laporan.StokRowDescribesProduk | backend/src/controllers/laporanController.ts:65-72 | each row of the stock report is made from a product of the table |
| Laporan.StokReportListsEveryProduk | backend/src/controllers/laporanController.ts:65-72 | every product has its row in the stock report |
| Laporan.TotalDiskonNeverNegative | backend/src/controllers/laporanController.ts:96-104 | starting from a non-negative `total_diskon` and sane prices, any run of checkouts with non-negative quantities keeps it non-negative |
| Laporan.IdsOf | backend/src/controllers/laporanController.ts:106-107 | the product ids of the groups, in order |
| Laporan.AddRowSum | backend/src/controllers/laporanController.ts:106-110 | adding a detail row to the groups adds its subtotal to their sum |
| Laporan.GroupsAddUp | backend/src/controllers/laporanController.ts:96-110 | the group sums add up to the sum of all detail subtotals |
| Laporan.AddRowLength | backend/src/controllers/laporanController.ts:106-107 | a row opens a new group iff its product has none |
| Laporan.AddRowKeeps | backend/src/controllers/laporanController.ts:106-110 | adding a row changes only its own product's group, by its subtotal |
| Laporan.AddRowNew | backend/src/controllers/laporanController.ts:106-107 | a row of a new product opens a group holding its subtotal |
| Laporan.AddRowDistinct | backend/src/controllers/laporanController.ts:106-107 | grouping never lists a product twice |
| Laporan.GroupsAreSums | backend/src/controllers/laporanController.ts:106-110 | one group per product with detail rows, no product twice, each holding its product's summed subtotal |
| Laporan.GroupsCoverRows | backend/src/controllers/laporanController.ts:106-107 | every detail row's product has a group |
| Laporan.GroupsHoldSums | backend/src/controllers/laporanController.ts:108-110 | each group holds its product's summed subtotal |
| Laporan.SoldStep | backend/src/controllers/laporanController.ts:108-110 | a detail row adds to its own product's sum only |
| Laporan.SoldNothing | backend/src/controllers/laporanController.ts:108-110 | a product without detail rows has sold nothing |
| Laporan.TopFive | backend/src/controllers/laporanController.ts:111-116 | min(5, number of groups) groups, drawn from the groups without repetition, in descending sum |
| Laporan.TopFiveTakesLargest | backend/src/controllers/laporanController.ts:111-116 | no group left out of the five sold more than any group taken |
| Laporan.BestSellers | backend/src/controllers/laporanController.ts:106-117 | min(5, number of groups) groups, drawn from the groups, in descending sum |
| Laporan.FindProduk | backend/src/controllers/laporanController.ts:120-122 | the product found has the id; none iff no product has it |
| Laporan.NamaTerlaris | backend/src/controllers/laporanController.ts:124 | the product's name, or "Produk Dihapus" when the product is gone or its name is empty |
| Laporan.LowestStok | backend/src/controllers/laporanController.ts:130-134 | min(5, number of products) products, drawn from the table without repetition, in ascending stock |
| Laporan.LowestStokTakesLeast | backend/src/controllers/laporanController.ts:130-134 | no product left out of the five has less stock than any product taken |
| Laporan.LowStock | backend/src/controllers/laporanController.ts:130-134 | min(5, number of products) name-and-stock rows, in ascending stock |
| Laporan.LowRowDescribesProduk | backend/src/controllers/laporanController.ts:130-134 | each low-stock row is the name and stock of a product of the table |
| Laporan.GetDashboardAdmin | backend/src/controllers/laporanController.ts:85-154 | the sale count, the sum of totals, `total_diskon` = Σ subTotal − Σ total, at most five best sellers named as above, and the low-stock list |
| Auth.Split | backend/src/middleware/authMiddleware.ts:8 | `split(' ')` always gives at least one piece |
| Auth.SplitPiecesFree | backend/src/middleware/authMiddleware.ts:8 | no piece contains the separator |
| Auth.SplitAt | backend/src/middleware/authMiddleware.ts:8 | splitting `a + sep + b` gives the pieces of `a` followed by those of `b` |
| Auth.JoinSplit | backend/src/middleware/authMiddleware.ts:8 | joining the pieces with the separator gives back the header |
| Auth.SplitJoin | backend/src/middleware/authMiddleware.ts:8 | splitting pieces without separators, joined, gives back the pieces |
| Auth.BearerToken | backend/src/middleware/authMiddleware.ts:7-9 | a token found is non-empty and contains no space; no header gives no token |
| Auth.BearerTokenOf | backend/src/middleware/authMiddleware.ts:7-8 | a header `scheme token[ rest]` yields `token`, whatever the scheme |
| Auth.NoSpaceNoToken | backend/src/middleware/authMiddleware.ts:8-9 | a header without a space yields no token |
| Auth.BearerTokenForm | backend/src/middleware/authMiddleware.ts:7-8 | every token found is the second piece of a header of that form |
| Auth.AuthToken | backend/src/middleware/authMiddleware.ts:6-19 | 401 iff there is no token; next iff the token verifies, with the decoded claims attached; a token that fails verification gives 403 "Token tidak valid!" |
| Auth.AuthRole | backend/src/middleware/authMiddleware.ts:22-30 | next iff a user with a role is attached and the role is allowed; otherwise 403 |
| Auth.GuardAdmits | backend/src/middleware/authMiddleware.ts:6-30 | a request passes both guards iff its token verifies to claims with an allowed role |
| Auth.KasirOnlyStaffRoutes | backend/src/middleware/authMiddleware.ts:22-28 | a KASIR token passes a staff role list and is refused with 403 by an admin-only one |
| MemberCrud.Create | backend/src/controllers/memberController.ts:13-37 | a missing field iff 403 "Semua fields harus diisi!"; with both fields, a phone in use iff 403 "No telepon sudah ada"; success iff both fields are filled and the phone is free, and it (200) adds exactly the member with the given fields under the next id; refusals change nothing |
| MemberCrud.Update | backend/src/controllers/memberController.ts:39-62 | a missing field iff 403; never the duplicate-phone 403; a missing row or a phone held by another member gives 500; success iff both fields are filled, the row exists and no other member holds the phone; a success overwrites only the target with the given fields |
| MemberCrud.Delete | backend/src/controllers/memberController.ts:64-79 | 500 iff the row is missing, with no change; otherwise only the target is removed and returned |
| MemberCrud.CreateAddsOne | backend/src/controllers/memberController.ts:26-33 | a successful create adds one row under a fresh id |
| MemberCrud.CreateKeepsValid | backend/src/controllers/memberController.ts:13-37 | create keeps rows under their ids and phone numbers unique |
| MemberCrud.UpdateKeepsValid | backend/src/controllers/memberController.ts:39-62 | update keeps rows under their ids and phone numbers unique |
| MemberCrud.DeleteKeepsValid | backend/src/controllers/memberController.ts:64-79 | delete keeps rows under their ids and phone numbers unique |
| MemberCrud.MemberTable.CreateMember | backend/src/controllers/memberController.ts:13-37 | the in-place handler leaves the table and reply of `Create` |
| MemberCrud.MemberTable.UpdateMember | backend/src/controllers/memberController.ts:39-62 | the in-place handler leaves the table and reply of `Update` |
| MemberCrud.MemberTable.DeleteMember | backend/src/controllers/memberController.ts:64-79 | the in-place handler leaves the table and reply of `Delete` |
| KasirCrud.KasirList | backend/src/controllers/kasirController.ts:4-15 | exactly the users whose role is KASIR, unchanged |
| KasirCrud.NewRole | backend/src/controllers/kasirController.ts:50-65 | an absent role keeps the old one; "ADMIN" and "KASIR" select that role; any other text is refused |
| KasirCrud.Create | backend/src/controllers/kasirController.ts:17-43 | a missing field iff 403; with all fields, a name in use iff 403 "No telepon sudah ada"; otherwise a username held by another user iff 500; success iff all fields are filled and the name and username are free; a success stores role KASIR and the password as sent under the next id; refusals change nothing |
| KasirCrud.Update | backend/src/controllers/kasirController.ts:45-71 | a missing field iff 403; success iff the row exists, the role is valid and the username is free; a success overwrites only the target's fields and role; every other refusal is 500 |
| KasirCrud.Delete | backend/src/controllers/kasirController.ts:73-96 | an admin iff 403 "Tidak Diperbolehkan untuk menghapus admin"; a missing row iff 500; success iff the row exists and is not an admin, and then only the target is removed |
| KasirCrud.CreateKeepsValid | backend/src/controllers/kasirController.ts:17-43 | create keeps rows under their ids and usernames unique |
| KasirCrud.UpdateKeepsValid | backend/src/controllers/kasirController.ts:45-71 | update keeps rows under their ids and usernames unique |
| KasirCrud.DeleteKeepsValid | backend/src/controllers/kasirController.ts:73-96 | delete keeps rows under their ids and usernames unique |
| KasirCrud.CreatedKasirIsListed | backend/src/controllers/kasirController.ts:4-43 | after a successful create, the cashier list is the old list plus the new user |
| KasirCrud.DeleteSparesAdmins | backend/src/controllers/kasirController.ts:78-85 | every admin row survives any delete unchanged |
| KasirCrud.DemotedAdminCanBeDeleted | backend/src/controllers/kasirController.ts:56-92 | an update sending role KASIR demotes an admin, and the next delete then removes it |
| KasirCrud.UserTable.GetAllKasir | backend/src/controllers/kasirController.ts:4-15 | returns `KasirList` of the table |
| KasirCrud.UserTable.CreateKasir | backend/src/controllers/kasirController.ts:17-43 | the in-place handler leaves the table and reply of `Create` |
| KasirCrud.UserTable.UpdateKasir | backend/src/controllers/kasirController.ts:45-71 | the in-place handler leaves the table and reply of `Update` |
| KasirCrud.UserTable.DeleteKasir | backend/src/controllers/kasirController.ts:73-96 | the in-place handler leaves the table and reply of `Delete` |
| ProdukCrud.RowOf | backend/src/controllers/produkController.ts:27-33 | the row carries `Number()` of harga, stok and kategoriId and the other fields as given |
| ProdukCrud.Create | backend/src/controllers/produkController.ts:17-39 | a missing field iff 403; otherwise a non-numeric field iff 500; success iff all four are filled and numeric; a success (200) stores exactly `Number()` of each numeric field and the uploaded file's name, else "default.png", under the next id |
| ProdukCrud.Update | backend/src/controllers/produkController.ts:41-70 | a missing field iff 403; otherwise a missing row or a non-numeric field iff 500; success iff all four are filled, the row exists and the fields are numeric; a success overwrites only the target with `Number()` of each numeric field and keeps its image when nothing is uploaded |
| ProdukCrud.Delete | backend/src/controllers/produkController.ts:72-95 | 404 "produk dengan id tersebut tidak ditemukan" iff the product is missing, with no change; otherwise only that product is removed |
| ProdukCrud.CreateKeepsKeys | backend/src/controllers/produkController.ts:17-39 | create keeps rows under their ids and adds exactly one row |
| ProdukCrud.UpdateKeepsKeys | backend/src/controllers/produkController.ts:41-70 | update keeps rows under their ids |
| ProdukCrud.DeleteKeepsKeys | backend/src/controllers/produkController.ts:72-95 | delete keeps rows under their ids |
| ProdukCrud.ImageSurvivesUpdates | backend/src/controllers/produkController.ts:47-48 | after an update with an upload, an update without one keeps the uploaded image |
| ProdukCrud.ProdukTable.CreateProduk | backend/src/controllers/produkController.ts:17-39 | the in-place handler leaves the table and reply of `Create` |
| ProdukCrud.ProdukTable.UpdateProduk | backend/src/controllers/produkController.ts:41-70 | the in-place handler leaves the table and reply of `Update` |
| ProdukCrud.ProdukTable.DeleteProduk | backend/src/controllers/produkController.ts:72-95 | the in-place handler leaves the table and reply of `Delete` |
| DiskonCrud.DateOf | backend/src/controllers/diskonController.ts:26-27 | `new Date()` of an absent field is invalid; otherwise it is the date parser's reading |
| DiskonCrud.RowOf | backend/src/controllers/diskonController.ts:22-29 | the row carries the converted percentage, minimum and dates, and the given name and status |
| DiskonCrud.Create | backend/src/controllers/diskonController.ts:13-35 | any of the five fields missing iff 400; success (201) iff all convert; a new voucher is "AKTIF" with the converted values under the next id; every other refusal is 500 |
| DiskonCrud.Update | backend/src/controllers/diskonController.ts:37-59 | a missing name iff 400 "Nama wajib diisi"; success iff the row exists and all four values convert; a success overwrites the target's values and keeps its status |
| DiskonCrud.Delete | backend/src/controllers/diskonController.ts:61-69 | 500 iff the row is missing, with no change; otherwise only the target is removed |
| DiskonCrud.CreateKeepsActive | backend/src/controllers/diskonController.ts:13-35 | create keeps every voucher active and rows under their ids |
| DiskonCrud.UpdateKeepsActive | backend/src/controllers/diskonController.ts:37-59 | update keeps every voucher active and rows under their ids |
| DiskonCrud.DeleteKeepsActive | backend/src/controllers/diskonController.ts:61-69 | delete keeps every voucher active and rows under their ids |
| DiskonCrud.NameOnlyUpdateFails | backend/src/controllers/diskonController.ts:42-58 | an update that sends only the name passes the 400 check and is refused with 500, with no change |
| DiskonCrud.DiskonTable.CreateDiskon | backend/src/controllers/diskonController.ts:13-35 | the in-place handler leaves the table and reply of `Create` |
| DiskonCrud.DiskonTable.UpdateDiskon | backend/src/controllers/diskonController.ts:37-59 | the in-place handler leaves the table and reply of `Update` |
| DiskonCrud.DiskonTable.DeleteDiskon | backend/src/controllers/diskonController.ts:61-69 | the in-place handler leaves the table and reply of `Delete` |
| KategoriCrud.Create | backend/src/controllers/kategoriController.ts:14-29 | a missing name iff 404 "Nama kategori harus diisi!" with no change; otherwise 201 with exactly one new category under the next id |
| KategoriCrud.Update | backend/src/controllers/kategoriController.ts:31-51 | a missing name iff 404; with a name, a missing row iff 500; success iff the name is filled and the row exists; a success (201) changes only the target's name |
| KategoriCrud.Delete | backend/src/controllers/kategoriController.ts:53-65 | 500 iff the row is missing, with no change; otherwise only the target is removed and returned, with 201 |
| KategoriCrud.CreateThenRename | backend/src/controllers/kategoriController.ts:14-51 | a create followed by a rename of the new row leaves one new category, holding the second name |
| KategoriCrud.CreateKeepsKeys | backend/src/controllers/kategoriController.ts:14-29 | create keeps rows under their ids |
| KategoriCrud.UpdateKeepsKeys | backend/src/controllers/kategoriController.ts:31-51 | update keeps rows under their ids |
| KategoriCrud.DeleteKeepsKeys | backend/src/controllers/kategoriController.ts:53-65 | delete keeps rows under their ids |
| KategoriCrud.KategoriTable.CreateKategori | backend/src/controllers/kategoriController.ts:14-29 | the in-place handler leaves the table and reply of `Create` |
| KategoriCrud.KategoriTable.UpdateKategori | backend/src/controllers/kategoriController.ts:31-51 | the in-place handler leaves the table and reply of `Update` |
| KategoriCrud.KategoriTable.DeleteKategori | backend/src/controllers/kategoriController.ts:53-65 | the in-place handler leaves the table and reply of `Delete` |

## Left out

- Prisma, Express and HTTP are replaced by maps, sequences and the `Reply` datatype.
  - A reply's success message text is not carried. Each handler sends one fixed text.
  - The `error` object of a 500 is not carried either.
  - Transactions are modelled only as all-or-nothing state updates.
- Transaksi.Checkout: a 500 reply carries the thrown error's text. The handler sends that text in the `error` field, under the fixed message "Transaksi Gagal dilakukan".
- Concurrency:
  - The `Promise.all` lookups of `createTransaksi` are a sequential loop. The first failing line in cart order gives the error, and the gross total is proved independent of the push order.
  - Races between concurrent requests are out of scope.
- Floating point: money is exact `real`. Neither the rounding of `0.05`, `persen / 100` and `Math.max` nor the currency formatting is modelled.
- Dates and the clock are parameters:
  - the current time of a checkout (`now`);
  - the current day of the sales report (`today`);
  - the `YYYY-MM-DD` parser of the report (`utcMidnight`);
  - `new Date(text)` for vouchers (`parseDate`).

  Time zones are not modelled.
- JWT signing and verification are the parameter `verify`. bcrypt and the login handler (`authController.ts`) are not part of this model.
- multer: the uploaded file is its stored name (`file`). The image-type filter and the disk storage are not modelled.
- Common.ToNumber: only empty text and texts of decimal digits convert. Signs, decimals, exponents, surrounding spaces and hexadecimal texts, which `Number()` also accepts, are modelled as NaN.
  - Prices, stocks and voucher percentages created through the forms are therefore whole and non-negative in the model.
  - Body fields sent as JSON numbers are modelled as their text. A JSON number 0 is falsy in the handlers, but the text "0" is not.
- Foreign keys are not modelled:
  - a product's category;
  - a sale's cashier, member and voucher;
  - a detail row's product.

  A delete the database would refuse because of a reference succeeds in the model.
  For the same reason, the catalogue filter's category test (`Cart.Shown`) compares the product's `kategoriId` with the selected category. The page compares `p.kategori?.id` (`page.tsx:180`). The two agree only while the product's category row exists. For a product whose category row is gone, the page shows it only under "all categories".
- Unique indexes: only the member phone number and the username are modelled as unique.
- Schema constraints assumed because no schema file is available, not read from the code: the unique phone number, the unique username and the role set {ADMIN, KASIR}. Several 500 replies depend on them:
  - `MemberCrud.Update`: a phone number held by another member;
  - `KasirCrud.Create` and `KasirCrud.Update`: a username held by another user;
  - `KasirCrud.NewRole`, and through it `KasirCrud.Update`: role text other than ADMIN or KASIR.

  Without those constraints the store would keep the duplicate or the text, and the handler would answer 200.
- Transaksi.ReadItem: an item without `id` or `quantity` is not carried through the handler. The model states only that the keys are missing. The handler itself goes on with undefined values:
  - `findFirst` with `id: undefined` applies no filter;
  - `stok < undefined` is false, so validation passes;
  - the subtotal is NaN.

  The reply is 500 either way, once the commit is reached. The checkout model takes integer item fields, and `Cart.TillCheckoutRefused` states the till's refusal through the missing `kasirId` alone.
- Transaksi.Checkout: `bayar` is a number. An absent or non-numeric `bayar` is not modelled. In the handler it makes `kembalian` NaN, and `NaN < 0` is false, so such a request passes the underpayment check and goes on to the commit, which stores `Number(bayar)`.
- Transaksi.Checkout: a missing `kasirId` is modelled as the commit's 500 with the fixed message. The store's own error text is not carried.
- Cart.Lower: only A–Z are lowercased. JavaScript's full Unicode case mapping is not modelled. That mapping lowercases letters such as "É", and it can change the length ("İ" becomes two code units).
- Cart.FilteredProducts: it filters with `Lower`, so names and searches outside A–Z match as in the model, not as on the page.
- The `!id` guards of update and delete never fire for a route `/:id`, so they are not modelled. A non-numeric `:id` (`Number(id)` is NaN) is not modelled either.
- Read-only list endpoints (`getAllMember`, `getAllProduk`, `getAllDiskon`, `getAllKategori`, `getAllTransaksi`) are straight queries and are not modelled. `getAllKasir` is modelled as its filter.
- Laporan.TopFive, Laporan.LowestStok, Laporan.GetLaporanPenjualan: the order among rows with equal keys is the stable order of the input. The database does not promise any particular order for ties.
- Laporan.LowStock: its contract gives the number of rows and their order, and `LowRowDescribesProduk` ties each row to a product. That these are the five products of least stock is stated for `LowestStok`, which it lists.
- Checkout does not look at a voucher's status or date window; neither does the model.
- The route wiring (`index.ts`, `routes/`) only attaches the guards and handlers. The role lists appear as `Auth.AdminOnly` and `Auth.Staff`.
- The remaining dashboard pages and components are UI only.
