/**
 * The bill record the new-bill form submits: the form's strings, the
 * submitter's e-mail, the controller's current file fields, and two numbers
 * obtained with `parseInt`.
 */
module BillRecord {
  import opened Wrappers
  import opened JsParseInt

  /** The values of the form's controls, as the strings the browser holds. */
  datatype FormInput = FormInput(
    expenseType: string,  // select "expense-type"
    expenseName: string,  // input "expense-name"
    amount: string,       // input "amount"
    date: string,         // input "datepicker"
    vat: string,          // input "vat"
    pct: string,          // input "pct"
    commentary: string)   // textarea "commentary"

  /**
   * The record handed to the store's `update`. Absent e-mail and null file
   * fields are None; `amount` and `pct` are JavaScript numbers (NaN possible
   * for `amount`).
   */
  datatype Bill = Bill(
    email: Option<string>,
    expenseType: string,
    name: string,
    amount: Num,
    date: string,
    vat: string,
    pct: Num,
    commentary: string,
    fileUrl: Option<string>,
    fileName: Option<string>,
    status: string)

  /** The status every new bill starts in. */
  const PendingStatus: string := "pending"

  /** The percentage used when the field gives NaN or 0. */
  const DefaultPct: int := 20

  /**
   * `parseInt(value) || 20`: the parsed percentage when it is a non-zero
   * number, 20 when parsing fails (NaN) or gives 0; never NaN, never 0.
   */
  function Pct(value: string): (r: Num)
    ensures r.Int? && r.value != 0
    ensures ParseInt(value).Int? && ParseInt(value).value != 0 ==> r == ParseInt(value)
    ensures ParseInt(value) == NaN ==> r == Int(DefaultPct)
    ensures ParseInt(value) == Int(0) ==> r == Int(DefaultPct)
  {
    Or(ParseInt(value), Int(DefaultPct))
  }

  /** A typed-in integer is kept as it is, except that 0 becomes 20. */
  lemma PctOfDecimal(n: int)
    ensures Pct(Decimal(n)) == if n == 0 then Int(DefaultPct) else Int(n)
  {
    ParseIntDecimal(n, "");
    assert Decimal(n) + "" == Decimal(n);
  }

  /** An empty percentage field gives the default. */
  lemma PctOfEmpty()
    ensures Pct("") == Int(DefaultPct)
  {
    ParseIntNaN("");
  }

  /**
   * The record built at submit time from the session e-mail, the form and
   * the controller's `fileUrl` and `fileName` as they are at that moment.
   */
  function BuildBill(email: Option<string>, form: FormInput,
                     fileUrl: Option<string>, fileName: Option<string>): (b: Bill)
    ensures b.status == PendingStatus && b.email == email
    ensures b.fileUrl == fileUrl && b.fileName == fileName
    ensures b.pct.Int? && b.pct.value != 0
  {
    Bill(email, form.expenseType, form.expenseName, ParseInt(form.amount), form.date,
         form.vat, Pct(form.pct), form.commentary, fileUrl, fileName, PendingStatus)
  }

  /**
   * What the built record holds: status "pending", the session e-mail, the
   * parsed amount (NaN included), a percentage that is never NaN or 0, the
   * file fields given, and the remaining form strings unchanged.
   */
  lemma BuildBillFields(email: Option<string>, form: FormInput,
                        fileUrl: Option<string>, fileName: Option<string>)
    ensures var b := BuildBill(email, form, fileUrl, fileName);
            && b.status == "pending"
            && b.email == email
            && b.amount == ParseInt(form.amount)
            && b.pct.Int? && b.pct.value != 0
            && (Truthy(ParseInt(form.pct)) ==> b.pct == ParseInt(form.pct))
            && (!Truthy(ParseInt(form.pct)) ==> b.pct == Int(20))
            && b.fileUrl == fileUrl && b.fileName == fileName
            && b.expenseType == form.expenseType && b.name == form.expenseName
            && b.date == form.date && b.vat == form.vat && b.commentary == form.commentary
  {
  }
}
