# Distributor admin panel: invoices, free-issue rules and discounts

A Dafny model of the three controllers of the distributor sales-operations
panel that hold rules of their own:

- **Invoices** (`InvoiceController`). An invoice is derived from a purchase
  order. Its total is recomputed from the submitted lines as
  Σ invoice_qty × discounted_price, and the client's `total_amount` is ignored.
  A new invoice starts as `pending`. A status update accepts `pending`, `paid`
  or `cancelled` from any current status. The index lists the purchase orders
  that no invoice refers to yet. The item lines offered for invoicing default
  `invoice_qty` to the ordered quantity. Invoice numbers are generated as
  `INV-<YYYYMMDD>-NNNN`.
- **Free-issue rules** (`FreeIssueController`). Create, update and delete on a
  table of promotion rules. No two rules may share a purchased product, and
  update leaves the edited record out of that check.
- **Discounts** (`DiscountController`). Create, update and delete on
  per-SKU percentage discounts, with the percentage in [0, 100]. There is no
  one-per-SKU check.

Files:

- `outcomes.dfy` (module `Outcomes`): `Option`, `Result`, `Outcome`, and the
  refusal kinds. `Invalid` is a validation failure, `NotFound` is
  `findOrFail`, and `Duplicate` is the free-issue controller's own 422. It
  also holds the blank-string test of Laravel's `required` rule.
- `invoice_numbers.dfy` (module `InvoiceNumbers`): the number generator as
  pure functions. It models PHP's `substr($s, -4)`, `intval`, int-to-string
  and `str_pad(…, 4, '0', STR_PAD_LEFT)`.
- `invoicing.dfy` (module `Invoicing`): the class `InvoiceBook` over the
  invoices table, plus the totals, the uninvoiced filter, the default lines
  and number generation over the table.
- `free_issues.dfy` (module `FreeIssues`): the class `FreeIssueTable` with the
  one-rule-per-purchased-product invariant.
- `discounts.dfy` (module `Discounts`): the class `DiscountTable` with the
  0–100 range invariant.

Modelling choices:

- Money is integer cents. Discount percentages are `real`.
- Each table holds its rows plus `nextId`, the auto-increment counter.
- The invoices table is a sequence in creation order. So `latest()`, the
  most recently created matching row, is the last one that matches.
- The rule tables are maps from id to row.
- The date (`date('Ymd')`) is a `today` parameter. The current user
  (`Auth::id()`) is a `user` parameter. The existing SKU ids are a `skus`
  set. The purchase orders are a sequence passed in.

Two behaviours of the code worth stating outright:

- Free-issue quantities are only required to be integers. Zero and negative
  quantities are accepted (`FreeIssues.AnyQuantityAccepted`).
- Invoice status changes have no transition guard: any of the three
  statuses may follow any other (`Invoicing.LastStatusWins`).

## Model

| member | source | states |
|---|---|---|
| `InvoiceNumbers.NatToString` | app/Http/Controllers/InvoiceController.php:193 | PHP writes a non-negative int as digits with no leading zero; reading them back gives the number; below 10000 it has at most four digits |
| `InvoiceNumbers.IntToString` | app/Http/Controllers/InvoiceController.php:193 | an int is written as '-' exactly when it is negative, followed by the decimal digits of its magnitude with no leading zero |
| `InvoiceNumbers.PadLeft` | app/Http/Controllers/InvoiceController.php:193 | `str_pad(…, LEFT)` keeps the string as its tail and fills only the front with the pad character, up to the width; a longer string is not truncated |
| `InvoiceNumbers.LastFour` | app/Http/Controllers/InvoiceController.php:186 | `substr($s, -4)` gives the last four characters, or the whole string when it is shorter |
| `InvoiceNumbers.IntvalOfDigits` | app/Http/Controllers/InvoiceController.php:186 | `intval` of a digit string is the number the digits denote, leading zeros included |
| `InvoiceNumbers.Intval` | app/Http/Controllers/InvoiceController.php:186 | `intval` of the empty string, or of a string starting with anything but white space, a sign or a digit, is 0 |
| `InvoiceNumbers.IntvalSkipsSpace` | app/Http/Controllers/InvoiceController.php:186 | `intval` skips leading white space |
| `InvoiceNumbers.IntvalSigned` | app/Http/Controllers/InvoiceController.php:186 | a '-' in front of a digit run negates its value, a '+' keeps it; what follows the run is ignored unless it could start a fraction or an exponent |
| `InvoiceNumbers.IntvalStopsAtNonDigit` | app/Http/Controllers/InvoiceController.php:186 | reading stops after the digit run when it is followed by nothing or by a character other than a digit, '.', 'e' or 'E'; what follows is ignored |
| `InvoiceNumbers.IntvalOfIntToString` | app/Http/Controllers/InvoiceController.php:186-193 | `intval` reads back every int exactly as PHP writes it |
| `InvoiceNumbers.Format` | app/Http/Controllers/InvoiceController.php:182-193 | every number built for a date starts with `INV-<date>-`; for sequence numbers 0..9999 the rest is exactly four decimal digits whose value is the sequence number |
| `InvoiceNumbers.Next` | app/Http/Controllers/InvoiceController.php:182-193 | the generated number always starts with today's prefix and '-' |
| `InvoiceNumbers.SuffixRoundTrip` | app/Http/Controllers/InvoiceController.php:186-193 | for 0 ≤ n ≤ 9999, reading the last four characters of the formatted number with `intval` gives back n |
| `InvoiceNumbers.FormatInjective` | app/Http/Controllers/InvoiceController.php:193 | within 0..9999, different sequence numbers give different invoice numbers |
| `InvoiceNumbers.FirstOfTheDay` | app/Http/Controllers/InvoiceController.php:188-193 | with no number for today, the generated number is `INV-<date>-0001` |
| `InvoiceNumbers.NextAfterFormatted` | app/Http/Controllers/InvoiceController.php:185-193 | after `…-n` (0 ≤ n ≤ 9999) the generated number is `…-(n+1)` |
| `InvoiceNumbers.TenThousandFormatted` | app/Http/Controllers/InvoiceController.php:193 | sequence number 10000 is written with five digits, `…-10000` |
| `InvoiceNumbers.NextAfterLast` | app/Http/Controllers/InvoiceController.php:186-193 | the number after `…-9999` is `…-10000` |
| `InvoiceNumbers.OverflowWrapsToFirst` | app/Http/Controllers/InvoiceController.php:186-193 | the number after `…-10000` is the day's first number `…-0001` again, because its last four characters `0000` read as 0 (a collision) |
| `InvoiceNumbers.NextExample` | app/Http/Controllers/InvoiceController.php:182-193 | after `INV-20240601-0007` comes `INV-20240601-0008` |
| `Invoicing.ParseStatus` | app/Http/Controllers/InvoiceController.php:165 | exactly `pending`, `paid` and `cancelled` are accepted, each as the status stored under that name |
| `Invoicing.StatusNameRoundTrip` | app/Http/Controllers/InvoiceController.php:165 | every stored status name is accepted and gives back that status |
| `Invoicing.TotalAppend` | app/Http/Controllers/InvoiceController.php:140-143 | the total over two batches of lines is the sum of their totals |
| `Invoicing.CalculateTotal` | app/Http/Controllers/InvoiceController.php:140-143 | the accumulating loop yields Σ invoice_qty × discounted_price over the submitted lines |
| `Invoicing.DefaultLines` | app/Http/Controllers/InvoiceController.php:212-224 | one line per purchase-order line, with invoice_qty defaulted to the ordered quantity and the discounted price carried over |
| `Invoicing.DefaultLinesBillWholeOrder` | app/Http/Controllers/InvoiceController.php:223 | invoicing with the default lines gives total = Σ quantity × discounted_price of the order's lines |
| `Invoicing.FindOrder` | app/Http/Controllers/InvoiceController.php:202-203 | `findOrFail` finds an order with that id exactly when one exists |
| `Invoicing.PurchaseOrderItems` | app/Http/Controllers/InvoiceController.php:200-228 | an unknown order fails with NotFound; otherwise the lines are the order's default lines, invoice_qty set to each line's quantity, and their total is the order's own value |
| `Invoicing.Uninvoiced` | app/Http/Controllers/InvoiceController.php:37 | the list holds exactly the purchase orders whose id appears in no invoice |
| `Invoicing.StoredOrderNotListed` | app/Http/Controllers/InvoiceController.php:37 | once an invoice refers to a purchase order, that order is no longer listed |
| `Invoicing.WithStatus` | app/Http/Controllers/InvoiceController.php:168-171 | only the status of the invoice with that id changes; every other invoice and every other field is left as it was |
| `Invoicing.LastStatusWins` | app/Http/Controllers/InvoiceController.php:164-171 | there is no transition guard: two updates in a row equal the second alone, whatever the statuses |
| `Invoicing.StatusUpdateIdempotent` | app/Http/Controllers/InvoiceController.php:164-171 | applying the same status twice equals applying it once |
| `Invoicing.StatusDoesNotReopenOrder` | app/Http/Controllers/InvoiceController.php:37 | no status change, not even to `cancelled`, puts a purchase order back on the uninvoiced list |
| `Invoicing.LatestNumber` | app/Http/Controllers/InvoiceController.php:183 | the number of the most recently created invoice with the prefix; None exactly when no invoice has it |
| `Invoicing.LatestIsLastStored` | app/Http/Controllers/InvoiceController.php:183 | an invoice just stored under the prefix is the latest one under it |
| `Invoicing.GenerateInvoiceNumber` | app/Http/Controllers/InvoiceController.php:180-194 | the number generated from the table starts with today's prefix and '-' |
| `Invoicing.GenerateFirstOfDay` | app/Http/Controllers/InvoiceController.php:182-193 | with no invoice under today's prefix, the table generates `INV-<date>-0001` |
| `Invoicing.GenerateAfterStored` | app/Http/Controllers/InvoiceController.php:183-193 | after storing today's `…-n` (n ≤ 9999), the table generates `…-(n+1)` |
| `Invoicing.IndexOfId` | app/Http/Controllers/InvoiceController.php:168 | `findOrFail` finds a row with the id exactly when one exists |
| `Invoicing.InvoiceBook.Store` | app/Http/Controllers/InvoiceController.php:130-153 | refused as Invalid with nothing changed unless the order exists, the number is filled and unused, the date is filled, the items are non-empty and a total is present; otherwise exactly one invoice is appended with status pending, the current user as creator and the recomputed total; the submitted total never reaches the row; invoice numbers stay unique |
| `Invoicing.InvoiceBook.UpdateStatus` | app/Http/Controllers/InvoiceController.php:164-171 | an unknown status gives Invalid, then a missing id gives NotFound, both with nothing changed; otherwise the rows become `WithStatus` of the old rows |
| `FreeIssues.ParseKind` | app/Http/Controllers/FreeIssueController.php:28 | exactly `Flat` and `Multiple` are accepted, each as its own kind |
| `FreeIssues.Validate` | app/Http/Controllers/FreeIssueController.php:26-33 | accepted exactly when the label is filled and at most 255 characters, the type is Flat or Multiple, and both products are existing SKUs; the validated fields are the submitted ones |
| `FreeIssues.AnyQuantityAccepted` | app/Http/Controllers/FreeIssueController.php:31-32 | the purchase and free quantities are not range-checked, so zero or negative values pass |
| `FreeIssues.InsertKeepsOnePerProduct` | app/Http/Controllers/FreeIssueController.php:36-41 | inserting a rule for a product no rule covers keeps at most one rule per product |
| `FreeIssues.ReplaceKeepsOnePerProduct` | app/Http/Controllers/FreeIssueController.php:62-68 | overwriting a rule with a product no other rule covers keeps at most one rule per product |
| `FreeIssues.ResaveOwnProductAccepted` | app/Http/Controllers/FreeIssueController.php:62-64 | re-saving a rule with its own purchased product passes update's duplicate check |
| `FreeIssues.MoveOntoOtherRejected` | app/Http/Controllers/FreeIssueController.php:62-66 | moving a rule onto another rule's purchased product fails update's duplicate check |
| `FreeIssues.FreshIdSameCheck` | app/Http/Controllers/FreeIssueController.php:36 | for an id not in the table, update's check (excluding that id) equals store's check |
| `FreeIssues.FreeIssueTable.Store` | app/Http/Controllers/FreeIssueController.php:24-46 | a validation failure gives Invalid; a product that already has a rule gives Duplicate; both leave the table unchanged; otherwise exactly one rule is added, with the validated fields and the current user as creator; one rule per product is kept |
| `FreeIssues.FreeIssueTable.Update` | app/Http/Controllers/FreeIssueController.php:48-73 | a missing id gives NotFound (checked before validation), then Invalid, then Duplicate when another rule holds the product, all with nothing changed; otherwise only that rule's fields are overwritten and its creator is kept; one rule per product is kept |
| `FreeIssues.FreeIssueTable.Destroy` | app/Http/Controllers/FreeIssueController.php:75-83 | a missing id gives NotFound with nothing changed; otherwise exactly that rule is removed and every other rule is unchanged |
| `FreeIssues.SecondRuleForProductRefused` | app/Http/Controllers/FreeIssueController.php:36-38 | after a successful store, a second store for the same purchased product is refused as Duplicate and the first rule stays |
| `Discounts.Validate` | app/Http/Controllers/DiscountController.php:24-28 | accepted exactly when the label is filled and at most 255 characters, the product is an existing SKU, and 0 ≤ percentage ≤ 100 (both bounds included); the record carries the submitted label, product and percentage |
| `Discounts.ValidatedInRange` | app/Http/Controllers/DiscountController.php:27 | every validated discount has a percentage in [0, 100] |
| `Discounts.DiscountTable.Store` | app/Http/Controllers/DiscountController.php:22-30 | Invalid with nothing changed unless the request validates; otherwise exactly one record is added with the validated fields; existing records are not consulted; all percentages stay in range |
| `Discounts.DiscountTable.Update` | app/Http/Controllers/DiscountController.php:37-46 | Invalid (checked first), then NotFound, both with nothing changed; otherwise only that record is replaced by the validated one |
| `Discounts.DiscountTable.Destroy` | app/Http/Controllers/DiscountController.php:53-56 | a missing id gives NotFound with nothing changed; otherwise exactly that record is removed |
| `Discounts.SameSkuTwice` | app/Http/Controllers/DiscountController.php:22-30 | storing the same valid discount twice succeeds both times, so two records for one SKU coexist under different ids |

## Left out

- Purchase-order pricing and the free-issue bonus engine. This covers discount application, Flat/Multiple bonus quantities, purchase-order totals and numbering. They live in the purchase-order controller, which is not part of this model. So a Flat or Multiple kind is only a stored label here.
- Listing and rendering: `index` (apart from its uninvoiced filter), `show` and `createFromPurchaseOrder` of the invoice controller, `index` of the free-issue controller, `index` and `getDiscounts` of the discount controller, and the JSON, redirect and page responses. These only read and present rows.
- Floating point. PHP multiplies invoice quantities and prices as floats. The model uses integer cents and integer quantities, so fractional quantities are not modelled. The rounding of the `decimal(10,2)` and `decimal(5,2)` columns is also not modelled.
- Invoicing.InvoiceBook.Store: the `date` rule is modelled only as "filled". Whether the string parses as a date is not checked. The `numeric` check on `total_amount` is reduced to "present".
- InvoiceNumbers.LastFour: strings are modelled as sequences of characters, while PHP's `substr` counts bytes. For an invoice number whose tail is not ASCII, such as one ending in `5é`, PHP takes the last four bytes and so reads a different suffix. Non-ASCII invoice numbers are therefore not modelled faithfully, although `store` accepts any string as the number.
- Invoicing.InvoiceBook.Store: every submitted line is assumed to carry integer `invoice_qty` and `discounted_price`, and the `remarks` key is present, holding a string or null (`None`). The code checks `items` only as a non-empty array. A line missing either key or holding a non-numeric value, or a request with no `remarks` key at all, ends in a server error with no invoice created. These inputs cannot be written down in the model.
- InvoiceNumbers.Intval: `intval` is modelled with leading white space, an optional sign and a digit run. PHP 8 also reads fraction and exponent forms such as `1e03` or `1.5e3` as a float first; that is not modelled, and `Intval` reads only their leading digit run. The lemmas about `Intval` exclude runs followed by '.', 'e' or 'E'.
- Invoicing.LatestNumber: SQL `LIKE` under the default collation ignores case. The model matches the prefix exactly. `latest()` orders by `created_at`; rows created in the same second have no defined order, and the model takes creation order.
- The number generator's race, where two requests read the same latest number, is not modelled. Generation is a pure function of the table and the date.
- The clock (`date('Ymd')`) and the session user (`Auth::id()`) are parameters.
- FreeIssues.FreeIssueTable: the one-rule-per-product invariant holds for rows written through these operations. The database has no unique constraint that would enforce it against other writers.
- FreeIssues.Validate: the request quantities are typed as integers, so the `integer` rule on `purches_qty` and `free_qty` always holds. A fractional or non-numeric quantity, which the code refuses as invalid, cannot be written down in the model.
- Discounts.Validate: the percentage is typed as a number, so the `numeric` rule on `discount` always holds. A non-numeric percentage such as `abc`, which the code refuses as invalid, cannot be written down in the model.
- Laravel's input middleware is not modelled. It trims strings and turns empty strings into null before validation.
- Database failures are not modelled, such as a foreign-key violation on insert or a lost connection.
