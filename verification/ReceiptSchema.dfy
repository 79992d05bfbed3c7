/**
  The receipt schema (src/lib/receiptSchema.ts) as a validation function over
  the untyped JSON tree. The top-level object is strict (an unknown key fails
  the whole parse); nested objects drop unknown keys; `document_type`,
  `line_items` and `notes` have defaults; other optional fields stay absent,
  and `null` is never accepted for them. Every field is checked and every
  problem is reported, as the schema library does: a failure carries the full
  list of issues, each with its path. The wording of the error text is not
  modelled, only the issue kinds.
 */
module ReceiptSchema {
  import opened Wrappers
  import opened JsonValue
  import opened Text
  import opened JsNumber

  datatype DocumentType = DocReceipt | DocInvoice | DocOther

  datatype Merchant = Merchant(
    name: string,
    address: Option<string>,
    phone: Option<string>,
    website: Option<string>)

  datatype Transaction = Transaction(
    date: Option<string>,
    time: Option<string>,
    receiptNumber: Option<string>,
    paymentMethod: Option<string>,
    cardLast4: Option<string>,
    currency: Option<string>)

  datatype Totals = Totals(
    subtotal: Option<real>,
    tax: Option<real>,
    tip: Option<real>,
    discount: Option<real>,
    total: Option<real>)

  datatype LineItem = LineItem(
    description: string,
    quantity: Option<real>,
    unitPrice: Option<real>,
    totalPrice: Option<real>)

  datatype Receipt = Receipt(
    documentType: DocumentType,
    merchant: Option<Merchant>,
    transaction: Option<Transaction>,
    totals: Option<Totals>,
    lineItems: seq<LineItem>,
    notes: seq<string>)

  /** One step of an issue's path: an object key or an array index. */
  datatype Segment = Key(name: string) | Index(index: nat)

  datatype IssueCode =
    | InvalidType                         // wrong JSON type, or a required key missing
    | InvalidUnion                        // an amount that is neither a number nor a string
    | InvalidValue                        // a `document_type` outside the enum
    | TooSmall                            // an empty string where `min(1)` applies
    | NotFinite                           // an amount whose coerced value is not a finite number
    | UnrecognizedKeys(keys: set<string>) // top-level keys outside the schema

  datatype Issue = Issue(path: seq<Segment>, code: IssueCode)

  /** `safeParse`: the validated receipt, or every issue found. */
  datatype Outcome = Valid(receipt: Receipt) | Invalid(issues: seq<Issue>)

  /** The result of checking one field: its value, or its issues (never an empty list). */
  type Checked<T> = Result<T, seq<Issue>>

  function IssuesOf<T>(c: Checked<T>): seq<Issue> {
    if c.Failure? then c.error else []
  }

  /** `input[key]`: `None` when the key is absent. */
  function Get(m: map<string, Json>, k: string): Option<Json> {
    if k in m then Some(m[k]) else None
  }

  // ---------------------------------------------------------------------
  // Amounts: `num`

  /** `v.replace(/[^\d.-]/g, "")`: keeps digits, `.` and `-`, in order. */
  function Clean(s: string): (r: string)
    ensures AllNumberChars(r) && |r| <= |s|
  {
    if s == [] then []
    else if IsNumberChar(s[0]) then [s[0]] + Clean(s[1..])
    else Clean(s[1..])
  }

  lemma {:induction false} CleanAppend(a: string, b: string)
    ensures Clean(a + b) == Clean(a) + Clean(b)
  {
    if a == [] {
      assert a + b == b;
    } else {
      assert (a + b)[0] == a[0];
      assert (a + b)[1..] == a[1..] + b;
      CleanAppend(a[1..], b);
    }
  }

  /** Text already made of digits, `.` and `-` is left as it is; so cleaning twice is cleaning once. */
  lemma {:induction false} CleanIdentity(s: string)
    requires AllNumberChars(s)
    ensures Clean(s) == s
  {
    if s != [] {
      CleanIdentity(s[1..]);
    }
  }

  /** Every character of `s` that is a digit, `.` or `-` is kept, and nothing else. */
  lemma {:induction false} CleanKeeps(s: string, c: char)
    ensures c in Clean(s) <==> c in s && IsNumberChar(c)
  {
    if s != [] {
      CleanKeeps(s[1..], c);
      assert s == [s[0]] + s[1..];
    }
  }

  /** The `num` schema: a number passes; a string is cleaned and read by `Number`, and must give a finite number. */
  function Num(v: Json, path: seq<Segment>): (r: Checked<real>)
    ensures v.JNum? ==> r == Success(v.n)
    ensures v.JStr? ==> (r.Success? <==> IsNumericText(Clean(v.s)))
    ensures !v.JNum? && !v.JStr? ==> r == Failure([Issue(path, InvalidUnion)])
    ensures r.Failure? ==> r.error != [] && forall e :: e in r.error ==> e.path == path
    ensures v.JStr? && !IsNumericText(Clean(v.s)) ==> r == Failure([Issue(path, NotFinite)])
    // An accepted string amount is `Number` of its cleaned text.
    ensures v.JStr? && r.Success? ==> NumberOf(Clean(v.s)).Some? && r.value == NumberOf(Clean(v.s)).value
  {
    match v
    case JNum(n) => Success(n)
    case JStr(s) =>
      NumberOfDefined(Clean(s));
      (match NumberOf(Clean(s))
       case Some(x) => Success(x)
       case None => Failure([Issue(path, NotFinite)]))
    case _ => Failure([Issue(path, InvalidUnion)])
  }

  function OptNum(v: Option<Json>, path: seq<Segment>): (r: Checked<Option<real>>)
    ensures v.None? ==> r == Success(None)
    ensures v.Some? ==> (r.Success? <==> Num(v.value, path).Success?)
    ensures v.Some? && r.Success? ==> r.value == Some(Num(v.value, path).value)
    ensures r.Failure? ==> r.error != []
  {
    match v
    case None => Success(None)
    case Some(j) =>
      match Num(j, path)
      case Success(x) => Success(Some(x))
      case Failure(e) => Failure(e)
  }

  // ---------------------------------------------------------------------
  // Strings

  /** `z.string().optional()`. */
  function OptString(v: Option<Json>, path: seq<Segment>): (r: Checked<Option<string>>)
    ensures r.Success? <==> v.None? || v.value.JStr?
    ensures r.Success? ==> r.value == (if v.None? then None else Some(v.value.s))
    ensures r.Failure? ==> r.error == [Issue(path, InvalidType)]
  {
    match v
    case None => Success(None)
    case Some(JStr(s)) => Success(Some(s))
    case Some(_) => Failure([Issue(path, InvalidType)])
  }

  /** `z.string().min(1)` for a required key: at least one character, with no trimming. */
  function MinString(v: Option<Json>, path: seq<Segment>): (r: Checked<string>)
    ensures r.Success? <==> v.Some? && v.value.JStr? && |v.value.s| >= 1
    ensures r.Success? ==> r.value == v.value.s
    ensures r.Failure? ==> r.error != []
  {
    match v
    case Some(JStr(s)) => if |s| >= 1 then Success(s) else Failure([Issue(path, TooSmall)])
    case _ => Failure([Issue(path, InvalidType)])
  }

  // ---------------------------------------------------------------------
  // Nested objects (unknown keys are dropped)

  function ValidateMerchant(v: Json, path: seq<Segment>): (r: Checked<Merchant>)
    ensures r.Success? ==> v.JObj? && |r.value.name| >= 1
    ensures r.Failure? ==> r.error != []
  {
    if !v.JObj? then Failure([Issue(path, InvalidType)])
    else
      var m := v.fields;
      var name := MinString(Get(m, "name"), path + [Key("name")]);
      var address := OptString(Get(m, "address"), path + [Key("address")]);
      var phone := OptString(Get(m, "phone"), path + [Key("phone")]);
      var website := OptString(Get(m, "website"), path + [Key("website")]);
      var issues := IssuesOf(name) + IssuesOf(address) + IssuesOf(phone) + IssuesOf(website);
      if issues == [] then Success(Merchant(name.value, address.value, phone.value, website.value))
      else Failure(issues)
  }

  function ValidateTransaction(v: Json, path: seq<Segment>): (r: Checked<Transaction>)
    ensures r.Success? ==> v.JObj?
    ensures r.Failure? ==> r.error != []
  {
    if !v.JObj? then Failure([Issue(path, InvalidType)])
    else
      var m := v.fields;
      var date := OptString(Get(m, "date"), path + [Key("date")]);
      var time := OptString(Get(m, "time"), path + [Key("time")]);
      var number := OptString(Get(m, "receipt_number"), path + [Key("receipt_number")]);
      var payment := OptString(Get(m, "payment_method"), path + [Key("payment_method")]);
      var last4 := OptString(Get(m, "card_last4"), path + [Key("card_last4")]);
      var currency := OptString(Get(m, "currency"), path + [Key("currency")]);
      var issues := IssuesOf(date) + IssuesOf(time) + IssuesOf(number)
        + IssuesOf(payment) + IssuesOf(last4) + IssuesOf(currency);
      if issues == [] then
        Success(Transaction(date.value, time.value, number.value, payment.value, last4.value, currency.value))
      else Failure(issues)
  }

  /** The amount keys of `totals`, in declared order. */
  const TotalsKeys: seq<string> := ["subtotal", "tax", "tip", "discount", "total"]

  function ValidateTotals(v: Json, path: seq<Segment>): (r: Checked<Totals>)
    ensures r.Success? ==> v.JObj?
    ensures r.Failure? ==> r.error != []
    // Every amount that fails is reported, whatever the others do.
    ensures v.JObj? ==> forall k :: k in TotalsKeys && k in v.fields && Num(v.fields[k], path + [Key(k)]).Failure? ==>
                          r.Failure? && Num(v.fields[k], path + [Key(k)]).error[0] in r.error
  {
    if !v.JObj? then Failure([Issue(path, InvalidType)])
    else
      var m := v.fields;
      var subtotal := OptNum(Get(m, "subtotal"), path + [Key("subtotal")]);
      var tax := OptNum(Get(m, "tax"), path + [Key("tax")]);
      var tip := OptNum(Get(m, "tip"), path + [Key("tip")]);
      var discount := OptNum(Get(m, "discount"), path + [Key("discount")]);
      var total := OptNum(Get(m, "total"), path + [Key("total")]);
      var issues := IssuesOf(subtotal) + IssuesOf(tax) + IssuesOf(tip) + IssuesOf(discount) + IssuesOf(total);
      if issues == [] then Success(Totals(subtotal.value, tax.value, tip.value, discount.value, total.value))
      else Failure(issues)
  }

  function ValidateLineItem(v: Json, path: seq<Segment>): (r: Checked<LineItem>)
    ensures r.Success? ==> v.JObj? && |r.value.description| >= 1
    ensures r.Failure? ==> r.error != []
  {
    if !v.JObj? then Failure([Issue(path, InvalidType)])
    else
      var m := v.fields;
      var description := MinString(Get(m, "description"), path + [Key("description")]);
      var quantity := OptNum(Get(m, "quantity"), path + [Key("quantity")]);
      var unitPrice := OptNum(Get(m, "unit_price"), path + [Key("unit_price")]);
      var totalPrice := OptNum(Get(m, "total_price"), path + [Key("total_price")]);
      var issues := IssuesOf(description) + IssuesOf(quantity) + IssuesOf(unitPrice) + IssuesOf(totalPrice);
      if issues == [] then Success(LineItem(description.value, quantity.value, unitPrice.value, totalPrice.value))
      else Failure(issues)
  }

  // ---------------------------------------------------------------------
  // Arrays

  /**
    The check of a whole array from the checks of its elements: the values
    when every element passes, otherwise the issues of all failing elements
    in index order.
   */
  function Collect<T>(cs: seq<Checked<T>>): (r: Checked<seq<T>>)
    ensures r.Success? <==> forall i :: 0 <= i < |cs| ==> cs[i].Success?
    ensures r.Success? ==> |r.value| == |cs| && forall i :: 0 <= i < |cs| ==> cs[i] == Success(r.value[i])
    ensures r.Failure? && (forall i :: 0 <= i < |cs| && cs[i].Failure? ==> cs[i].error != []) ==> r.error != []
  {
    if cs == [] then Success([])
    else
      var tail := Collect(cs[1..]);
      if cs[0].Success? && tail.Success? then Success([cs[0].value] + tail.value)
      else
        assert tail.Failure? ==> exists i :: 0 <= i < |cs[1..]| && cs[1..][i].Failure?;
        assert (forall i :: 0 <= i < |cs| && cs[i].Failure? ==> cs[i].error != [])
          ==> (forall i :: 0 <= i < |cs[1..]| && cs[1..][i].Failure? ==> cs[1..][i].error != []);
        Failure(IssuesOf(cs[0]) + IssuesOf(tail))
  }

  /** One failing element fails the array, and its issues are all reported. */
  lemma {:induction false} CollectReports<T>(cs: seq<Checked<T>>, i: nat)
    requires i < |cs| && cs[i].Failure?
    ensures Collect(cs).Failure?
    ensures forall e :: e in cs[i].error ==> e in Collect(cs).error
  {
    var tail := Collect(cs[1..]);
    assert Collect(cs) == Failure(IssuesOf(cs[0]) + IssuesOf(tail));
    if i > 0 {
      assert cs[1..][i - 1] == cs[i];
      CollectReports(cs[1..], i - 1);
    }
  }

  /** The per-element checks of `line_items`. */
  function LineItemChecks(es: seq<Json>): (cs: seq<Checked<LineItem>>)
    ensures |cs| == |es|
    ensures forall i :: 0 <= i < |es| ==> cs[i] == ValidateLineItem(es[i], [Key("line_items"), Index(i)])
  {
    seq(|es|, i requires 0 <= i < |es| => ValidateLineItem(es[i], [Key("line_items"), Index(i)]))
  }

  /** `z.string()` for one element of `notes`. */
  function NoteCheck(v: Json, i: nat): (r: Checked<string>)
    ensures r.Success? <==> v.JStr?
    ensures r.Success? ==> r.value == v.s
    ensures r.Failure? ==> r.error == [Issue([Key("notes"), Index(i)], InvalidType)]
  {
    if v.JStr? then Success(v.s) else Failure([Issue([Key("notes"), Index(i)], InvalidType)])
  }

  function NoteChecks(es: seq<Json>): (cs: seq<Checked<string>>)
    ensures |cs| == |es| && forall i :: 0 <= i < |es| ==> cs[i] == NoteCheck(es[i], i)
  {
    seq(|es|, i requires 0 <= i < |es| => NoteCheck(es[i], i))
  }

  // ---------------------------------------------------------------------
  // Top-level fields

  /** `z.enum(["receipt", "invoice", "other"]).default("receipt")`. */
  function DocType(v: Option<Json>): (r: Checked<DocumentType>)
    ensures v.None? ==> r == Success(DocReceipt)
    ensures v.Some? ==> (r.Success? <==> v.value in {JStr("receipt"), JStr("invoice"), JStr("other")})
    ensures r.Failure? ==> r.error != []
  {
    match v
    case None => Success(DocReceipt)
    case Some(JStr("receipt")) => Success(DocReceipt)
    case Some(JStr("invoice")) => Success(DocInvoice)
    case Some(JStr("other")) => Success(DocOther)
    case Some(_) => Failure([Issue([Key("document_type")], InvalidValue)])
  }

  /** Turns a check of a present value into a check of an optional one. */
  function Lift<T>(c: Checked<T>): (r: Checked<Option<T>>)
    ensures r.Success? <==> c.Success?
    ensures r.Success? ==> r.value == Some(c.value)
    ensures r.Failure? ==> r.error == c.error
  {
    match c
    case Success(x) => Success(Some(x))
    case Failure(e) => Failure(e)
  }

  function MerchantField(v: Option<Json>): Checked<Option<Merchant>> {
    if v.None? then Success(None) else Lift(ValidateMerchant(v.value, [Key("merchant")]))
  }

  function TransactionField(v: Option<Json>): Checked<Option<Transaction>> {
    if v.None? then Success(None) else Lift(ValidateTransaction(v.value, [Key("transaction")]))
  }

  function TotalsField(v: Option<Json>): Checked<Option<Totals>> {
    if v.None? then Success(None) else Lift(ValidateTotals(v.value, [Key("totals")]))
  }

  /** `z.array(...).default([])` for `line_items`. */
  function LineItemsField(v: Option<Json>): (r: Checked<seq<LineItem>>)
    ensures v.None? ==> r == Success([])
    ensures r.Failure? ==> r.error != []
  {
    match v
    case None => Success([])
    case Some(JArr(es)) => Collect(LineItemChecks(es))
    case Some(_) => Failure([Issue([Key("line_items")], InvalidType)])
  }

  /** `z.array(z.string()).default([])` for `notes`. */
  function NotesField(v: Option<Json>): (r: Checked<seq<string>>)
    ensures v.None? ==> r == Success([])
    ensures r.Failure? ==> r.error != []
  {
    match v
    case None => Success([])
    case Some(JArr(es)) => Collect(NoteChecks(es))
    case Some(_) => Failure([Issue([Key("notes")], InvalidType)])
  }

  /** The closed key set of the top-level object. */
  const TopKeys: set<string> := {"document_type", "merchant", "transaction", "totals", "line_items", "notes"}

  /** A receipt as only validation can produce it: required strings are non-empty. */
  predicate Conforms(r: Receipt) {
    && (r.merchant.Some? ==> |r.merchant.value.name| >= 1)
    && (forall i :: 0 <= i < |r.lineItems| ==> |r.lineItems[i].description| >= 1)
  }

  /** The issues of every top-level field, in declared order, then the unknown keys. */
  function TopIssues(m: map<string, Json>): seq<Issue> {
    IssuesOf(DocType(Get(m, "document_type")))
      + IssuesOf(MerchantField(Get(m, "merchant")))
      + IssuesOf(TransactionField(Get(m, "transaction")))
      + IssuesOf(TotalsField(Get(m, "totals")))
      + IssuesOf(LineItemsField(Get(m, "line_items")))
      + IssuesOf(NotesField(Get(m, "notes")))
      + (if m.Keys <= TopKeys then [] else [Issue([], UnrecognizedKeys(m.Keys - TopKeys))])
  }

  /** `ReceiptSchema.safeParse(json)`. */
  function Validate(j: Json): (r: Outcome)
    ensures r.Invalid? ==> r.issues != []
    // Strict top level: an unknown key always fails, and the issue names every unknown key.
    ensures r.Valid? ==> j.JObj? && j.fields.Keys <= TopKeys
    ensures j.JObj? && !(j.fields.Keys <= TopKeys) ==>
      r.Invalid? && Issue([], UnrecognizedKeys(j.fields.Keys - TopKeys)) in r.issues
  {
    if !j.JObj? then Invalid([Issue([], InvalidType)])
    else
      var m := j.fields;
      var docType := DocType(Get(m, "document_type"));
      var merchant := MerchantField(Get(m, "merchant"));
      var transaction := TransactionField(Get(m, "transaction"));
      var totals := TotalsField(Get(m, "totals"));
      var lineItems := LineItemsField(Get(m, "line_items"));
      var notes := NotesField(Get(m, "notes"));
      var issues := TopIssues(m);
      if issues == [] then
        Valid(Receipt(docType.value, merchant.value, transaction.value, totals.value, lineItems.value, notes.value))
      else
        Invalid(issues)
  }

  /** Defaults for absent keys; other absent fields stay absent, present ones stay present. */
  lemma ValidateDefaults(m: map<string, Json>)
    requires Validate(JObj(m)).Valid?
    ensures var rc := Validate(JObj(m)).receipt;
      && ("document_type" !in m ==> rc.documentType == DocReceipt)
      && ("line_items" !in m ==> rc.lineItems == [])
      && ("notes" !in m ==> rc.notes == [])
      && ("merchant" in m <==> rc.merchant.Some?)
      && ("transaction" in m <==> rc.transaction.Some?)
      && ("totals" in m <==> rc.totals.Some?)
  {
  }

  /** `null` is not an absent field: a top-level key holding `null` fails. */
  lemma NullRejected(m: map<string, Json>, k: string)
    requires k in TopKeys && Get(m, k) == Some(JNull)
    ensures Validate(JObj(m)).Invalid?
  {
  }

  /** Whatever validation accepts has non-empty required strings. */
  lemma ValidConforms(j: Json)
    requires Validate(j).Valid?
    ensures Conforms(Validate(j).receipt)
  {
  }

  // ---------------------------------------------------------------------
  // The receipt as JSON again, and the round trip

  function DocTypeName(d: DocumentType): string {
    match d
    case DocReceipt => "receipt"
    case DocInvoice => "invoice"
    case DocOther => "other"
  }

  lemma DocTypeRoundTrip(d: DocumentType)
    ensures DocType(Some(JStr(DocTypeName(d)))) == Success(d)
  {
    match d
    case DocReceipt =>
    case DocInvoice =>
      assert "invoice" != "receipt" by { assert "invoice"[0] != "receipt"[0]; }
    case DocOther =>
      assert "other" != "receipt" by { assert "other"[0] != "receipt"[0]; }
      assert "other" != "invoice" by { assert "other"[0] != "invoice"[0]; }
  }

  /** Adds a key with a string value, or nothing when the field is absent. */
  function PutStr(m: map<string, Json>, k: string, o: Option<string>): (r: map<string, Json>)
    ensures Get(r, k) == (if o.None? then Get(m, k) else Some(JStr(o.value)))
    ensures forall k' :: k' != k ==> Get(r, k') == Get(m, k')
  {
    if o.None? then m else m[k := JStr(o.value)]
  }

  /** Adds a key with a number value, or nothing when the field is absent. */
  function PutNum(m: map<string, Json>, k: string, o: Option<real>): (r: map<string, Json>)
    ensures Get(r, k) == (if o.None? then Get(m, k) else Some(JNum(o.value)))
    ensures forall k' :: k' != k ==> Get(r, k') == Get(m, k')
  {
    if o.None? then m else m[k := JNum(o.value)]
  }

  /** Adds a key with an object value, or nothing when the field is absent. */
  function PutObj(m: map<string, Json>, k: string, o: Option<Json>): (r: map<string, Json>)
    ensures Get(r, k) == (if o.None? then Get(m, k) else o)
    ensures forall k' :: k' != k ==> Get(r, k') == Get(m, k')
    ensures forall k' :: k' in r ==> k' in m || k' == k
  {
    if o.None? then m else m[k := o.value]
  }

  function MerchantJson(m: Merchant): Json {
    JObj(PutStr(PutStr(PutStr(map["name" := JStr(m.name)], "address", m.address), "phone", m.phone), "website", m.website))
  }

  function TransactionJson(t: Transaction): Json {
    var m0: map<string, Json> := map[];
    var m1 := PutStr(m0, "date", t.date);
    var m2 := PutStr(m1, "time", t.time);
    var m3 := PutStr(m2, "receipt_number", t.receiptNumber);
    var m4 := PutStr(m3, "payment_method", t.paymentMethod);
    var m5 := PutStr(m4, "card_last4", t.cardLast4);
    JObj(PutStr(m5, "currency", t.currency))
  }

  function TotalsJson(t: Totals): Json {
    var m0: map<string, Json> := map[];
    var m1 := PutNum(m0, "subtotal", t.subtotal);
    var m2 := PutNum(m1, "tax", t.tax);
    var m3 := PutNum(m2, "tip", t.tip);
    var m4 := PutNum(m3, "discount", t.discount);
    JObj(PutNum(m4, "total", t.total))
  }

  function LineItemJson(li: LineItem): Json {
    JObj(PutNum(PutNum(PutNum(map["description" := JStr(li.description)], "quantity", li.quantity),
      "unit_price", li.unitPrice), "total_price", li.totalPrice))
  }

  function LineItemsJson(items: seq<LineItem>): (r: seq<Json>)
    ensures |r| == |items| && forall i :: 0 <= i < |items| ==> r[i] == LineItemJson(items[i])
  {
    seq(|items|, i requires 0 <= i < |items| => LineItemJson(items[i]))
  }

  function NotesJson(notes: seq<string>): (r: seq<Json>)
    ensures |r| == |notes| && forall i :: 0 <= i < |notes| ==> r[i] == JStr(notes[i])
  {
    seq(|notes|, i requires 0 <= i < |notes| => JStr(notes[i]))
  }

  function StrJson(s: string): Json {
    JStr(s)
  }

  function NumJson(x: real): Json {
    JNum(x)
  }

  function OptJson<T>(o: Option<T>, f: T -> Json): Option<Json> {
    if o.None? then None else Some(f(o.value))
  }

  /** The object `JSON.stringify` would write for a receipt, read back as a tree. */
  function ToJson(r: Receipt): Json {
    var base := map["document_type" := JStr(DocTypeName(r.documentType)),
                    "line_items" := JArr(LineItemsJson(r.lineItems)),
                    "notes" := JArr(NotesJson(r.notes))];
    var m1 := PutObj(base, "merchant", OptJson(r.merchant, MerchantJson));
    var m2 := PutObj(m1, "transaction", OptJson(r.transaction, TransactionJson));
    JObj(PutObj(m2, "totals", OptJson(r.totals, TotalsJson)))
  }

  lemma MerchantRoundTrip(m: Merchant, path: seq<Segment>)
    requires |m.name| >= 1
    ensures ValidateMerchant(MerchantJson(m), path) == Success(m)
  {
    MerchantFields(m);
    MerchantAccepts(MerchantJson(m).fields, path, m);
  }

  /** Each field of a merchant written as JSON reads back as itself. */
  lemma MerchantFields(m: Merchant)
    ensures Get(MerchantJson(m).fields, "name") == Some(JStr(m.name))
    ensures Get(MerchantJson(m).fields, "address") == OptJson(m.address, StrJson)
    ensures Get(MerchantJson(m).fields, "phone") == OptJson(m.phone, StrJson)
    ensures Get(MerchantJson(m).fields, "website") == OptJson(m.website, StrJson)
  {
  }

  /** A merchant object with a non-empty name and string fields is accepted with exactly those fields. */
  lemma MerchantAccepts(f: map<string, Json>, path: seq<Segment>, m: Merchant)
    requires |m.name| >= 1 && Get(f, "name") == Some(JStr(m.name))
    requires Get(f, "address") == OptJson(m.address, StrJson)
    requires Get(f, "phone") == OptJson(m.phone, StrJson)
    requires Get(f, "website") == OptJson(m.website, StrJson)
    ensures ValidateMerchant(JObj(f), path) == Success(m)
  {
  }

  /** Each field of a transaction written as JSON reads back as itself. */
  lemma TransactionFields(t: Transaction)
    ensures Get(TransactionJson(t).fields, "date") == OptJson(t.date, StrJson)
    ensures Get(TransactionJson(t).fields, "time") == OptJson(t.time, StrJson)
    ensures Get(TransactionJson(t).fields, "receipt_number") == OptJson(t.receiptNumber, StrJson)
    ensures Get(TransactionJson(t).fields, "payment_method") == OptJson(t.paymentMethod, StrJson)
    ensures Get(TransactionJson(t).fields, "card_last4") == OptJson(t.cardLast4, StrJson)
    ensures Get(TransactionJson(t).fields, "currency") == OptJson(t.currency, StrJson)
  {
  }

  /** A transaction object whose every field passes is accepted with exactly those fields. */
  lemma TransactionAccepts(m: map<string, Json>, path: seq<Segment>, t: Transaction)
    requires Get(m, "date") == OptJson(t.date, StrJson)
    requires Get(m, "time") == OptJson(t.time, StrJson)
    requires Get(m, "receipt_number") == OptJson(t.receiptNumber, StrJson)
    requires Get(m, "payment_method") == OptJson(t.paymentMethod, StrJson)
    requires Get(m, "card_last4") == OptJson(t.cardLast4, StrJson)
    requires Get(m, "currency") == OptJson(t.currency, StrJson)
    ensures ValidateTransaction(JObj(m), path) == Success(t)
  {
  }

  lemma TransactionRoundTrip(t: Transaction, path: seq<Segment>)
    ensures ValidateTransaction(TransactionJson(t), path) == Success(t)
  {
    TransactionFields(t);
    TransactionAccepts(TransactionJson(t).fields, path, t);
  }

  /** Each amount of a totals record written as JSON reads back as itself. */
  lemma TotalsFields(t: Totals)
    ensures Get(TotalsJson(t).fields, "subtotal") == OptJson(t.subtotal, NumJson)
    ensures Get(TotalsJson(t).fields, "tax") == OptJson(t.tax, NumJson)
    ensures Get(TotalsJson(t).fields, "tip") == OptJson(t.tip, NumJson)
    ensures Get(TotalsJson(t).fields, "discount") == OptJson(t.discount, NumJson)
    ensures Get(TotalsJson(t).fields, "total") == OptJson(t.total, NumJson)
  {
  }

  /**
    A totals object whose every amount passes `num` is accepted with exactly
    the values `num` gives: numbers as they are, and amounts written as text
    as `Number` of their cleaned text.
   */
  lemma TotalsAccepts(m: map<string, Json>, path: seq<Segment>, t: Totals)
    requires OptNum(Get(m, "subtotal"), path + [Key("subtotal")]) == Success(t.subtotal)
    requires OptNum(Get(m, "tax"), path + [Key("tax")]) == Success(t.tax)
    requires OptNum(Get(m, "tip"), path + [Key("tip")]) == Success(t.tip)
    requires OptNum(Get(m, "discount"), path + [Key("discount")]) == Success(t.discount)
    requires OptNum(Get(m, "total"), path + [Key("total")]) == Success(t.total)
    ensures ValidateTotals(JObj(m), path) == Success(t)
  {
  }

  /** An amount written as a JSON number, or left out, passes `num` as itself. */
  lemma OptNumOfNumber(x: Option<real>, path: seq<Segment>)
    ensures OptNum(OptJson(x, NumJson), path) == Success(x)
  {
  }

  lemma TotalsRoundTrip(t: Totals, path: seq<Segment>)
    ensures ValidateTotals(TotalsJson(t), path) == Success(t)
  {
    TotalsFields(t);
    OptNumOfNumber(t.subtotal, path + [Key("subtotal")]);
    OptNumOfNumber(t.tax, path + [Key("tax")]);
    OptNumOfNumber(t.tip, path + [Key("tip")]);
    OptNumOfNumber(t.discount, path + [Key("discount")]);
    OptNumOfNumber(t.total, path + [Key("total")]);
    TotalsAccepts(TotalsJson(t).fields, path, t);
  }

  lemma LineItemRoundTrip(li: LineItem, path: seq<Segment>)
    requires |li.description| >= 1
    ensures ValidateLineItem(LineItemJson(li), path) == Success(li)
  {
    LineItemFields(li);
    OptNumOfNumber(li.quantity, path + [Key("quantity")]);
    OptNumOfNumber(li.unitPrice, path + [Key("unit_price")]);
    OptNumOfNumber(li.totalPrice, path + [Key("total_price")]);
    LineItemAccepts(LineItemJson(li).fields, path, li);
  }

  /** Each field of a line item written as JSON reads back as itself. */
  lemma LineItemFields(li: LineItem)
    ensures Get(LineItemJson(li).fields, "description") == Some(JStr(li.description))
    ensures Get(LineItemJson(li).fields, "quantity") == OptJson(li.quantity, NumJson)
    ensures Get(LineItemJson(li).fields, "unit_price") == OptJson(li.unitPrice, NumJson)
    ensures Get(LineItemJson(li).fields, "total_price") == OptJson(li.totalPrice, NumJson)
  {
  }

  /**
    A line item object with a non-empty description and amounts that pass
    `num` is accepted with that description and the values `num` gives.
   */
  lemma LineItemAccepts(f: map<string, Json>, path: seq<Segment>, li: LineItem)
    requires |li.description| >= 1 && Get(f, "description") == Some(JStr(li.description))
    requires OptNum(Get(f, "quantity"), path + [Key("quantity")]) == Success(li.quantity)
    requires OptNum(Get(f, "unit_price"), path + [Key("unit_price")]) == Success(li.unitPrice)
    requires OptNum(Get(f, "total_price"), path + [Key("total_price")]) == Success(li.totalPrice)
    ensures ValidateLineItem(JObj(f), path) == Success(li)
  {
  }

  /** Every element's check passes, so the array's check gives the elements back. */
  lemma CollectAllPass<T>(cs: seq<Checked<T>>, xs: seq<T>)
    requires |cs| == |xs| && forall i :: 0 <= i < |cs| ==> cs[i] == Success(xs[i])
    ensures Collect(cs) == Success(xs)
  {
    var r := Collect(cs);
    assert r.Success?;
    assert r.value == xs;
  }

  /** An object with no unknown key whose every field passes is accepted with exactly those fields. */
  lemma ValidateAccepts(m: map<string, Json>, r: Receipt)
    requires m.Keys <= TopKeys
    requires DocType(Get(m, "document_type")) == Success(r.documentType)
    requires MerchantField(Get(m, "merchant")) == Success(r.merchant)
    requires TransactionField(Get(m, "transaction")) == Success(r.transaction)
    requires TotalsField(Get(m, "totals")) == Success(r.totals)
    requires LineItemsField(Get(m, "line_items")) == Success(r.lineItems)
    requires NotesField(Get(m, "notes")) == Success(r.notes)
    ensures Validate(JObj(m)) == Valid(r)
  {
    assert TopIssues(m) == [];
  }

  lemma LineItemsRoundTrip(items: seq<LineItem>)
    requires forall i :: 0 <= i < |items| ==> |items[i].description| >= 1
    ensures LineItemsField(Some(JArr(LineItemsJson(items)))) == Success(items)
  {
    var js := LineItemsJson(items);
    forall i | 0 <= i < |js|
      ensures LineItemChecks(js)[i] == Success(items[i])
    {
      LineItemRoundTrip(items[i], [Key("line_items"), Index(i)]);
    }
    CollectAllPass(LineItemChecks(js), items);
  }

  lemma NotesRoundTrip(notes: seq<string>)
    ensures NotesField(Some(JArr(NotesJson(notes)))) == Success(notes)
  {
    CollectAllPass(NoteChecks(NotesJson(notes)), notes);
  }

  /** Each top-level field of a receipt written as JSON reads back as itself. */
  lemma ToJsonFields(r: Receipt)
    ensures ToJson(r).fields.Keys <= TopKeys
    ensures Get(ToJson(r).fields, "document_type") == Some(JStr(DocTypeName(r.documentType)))
    ensures Get(ToJson(r).fields, "merchant") == OptJson(r.merchant, MerchantJson)
    ensures Get(ToJson(r).fields, "transaction") == OptJson(r.transaction, TransactionJson)
    ensures Get(ToJson(r).fields, "totals") == OptJson(r.totals, TotalsJson)
    ensures Get(ToJson(r).fields, "line_items") == Some(JArr(LineItemsJson(r.lineItems)))
    ensures Get(ToJson(r).fields, "notes") == Some(JArr(NotesJson(r.notes)))
  {
    var base := map["document_type" := JStr(DocTypeName(r.documentType)),
                    "line_items" := JArr(LineItemsJson(r.lineItems)),
                    "notes" := JArr(NotesJson(r.notes))];
    var m1 := PutObj(base, "merchant", OptJson(r.merchant, MerchantJson));
    var m2 := PutObj(m1, "transaction", OptJson(r.transaction, TransactionJson));
    var m3 := PutObj(m2, "totals", OptJson(r.totals, TotalsJson));
    assert ToJson(r).fields == m3;
    assert base.Keys == {"document_type", "line_items", "notes"};
    assert Get(base, "merchant") == None && Get(base, "transaction") == None && Get(base, "totals") == None;
  }

  /** A conforming receipt, written as JSON and validated again, is itself. */
  lemma {:induction false} RoundTrip(r: Receipt)
    requires Conforms(r)
    ensures Validate(ToJson(r)) == Valid(r)
  {
    var f := ToJson(r).fields;
    ToJsonFields(r);
    assert DocType(Get(f, "document_type")) == Success(r.documentType) by {
      DocTypeRoundTrip(r.documentType);
    }
    assert MerchantField(Get(f, "merchant")) == Success(r.merchant) by {
      if r.merchant.Some? {
        MerchantRoundTrip(r.merchant.value, [Key("merchant")]);
      }
    }
    assert TransactionField(Get(f, "transaction")) == Success(r.transaction) by {
      if r.transaction.Some? {
        TransactionRoundTrip(r.transaction.value, [Key("transaction")]);
      }
    }
    assert TotalsField(Get(f, "totals")) == Success(r.totals) by {
      if r.totals.Some? {
        TotalsRoundTrip(r.totals.value, [Key("totals")]);
      }
    }
    assert LineItemsField(Get(f, "line_items")) == Success(r.lineItems) by {
      LineItemsRoundTrip(r.lineItems);
    }
    assert NotesField(Get(f, "notes")) == Success(r.notes) by {
      NotesRoundTrip(r.notes);
    }
    ValidateAccepts(f, r);
  }

  /** Whatever validation accepts, written back as JSON, is accepted again unchanged. */
  lemma ValidatedRoundTrip(j: Json)
    requires Validate(j).Valid?
    ensures Validate(ToJson(Validate(j).receipt)) == Validate(j)
  {
    ValidConforms(j);
    RoundTrip(Validate(j).receipt);
  }

  // ---------------------------------------------------------------------
  // What the schema promises

  const MerchantKeys: set<string> := {"name", "address", "phone", "website"}
  const TransactionKeys: set<string> := {"date", "time", "receipt_number", "payment_method", "card_last4", "currency"}
  const LineItemKeys: set<string> := {"description", "quantity", "unit_price", "total_price"}

  /** Nested objects drop unknown keys: adding one to a merchant changes nothing. */
  lemma MerchantStripsUnknown(m: map<string, Json>, k: string, x: Json, path: seq<Segment>)
    requires k !in MerchantKeys
    ensures ValidateMerchant(JObj(m[k := x]), path) == ValidateMerchant(JObj(m), path)
  {
    forall n | n in MerchantKeys ensures Get(m[k := x], n) == Get(m, n) { }
  }

  lemma TransactionStripsUnknown(m: map<string, Json>, k: string, x: Json, path: seq<Segment>)
    requires k !in TransactionKeys
    ensures ValidateTransaction(JObj(m[k := x]), path) == ValidateTransaction(JObj(m), path)
  {
    forall n | n in TransactionKeys ensures Get(m[k := x], n) == Get(m, n) { }
  }

  lemma TotalsStripsUnknown(m: map<string, Json>, k: string, x: Json, path: seq<Segment>)
    requires k !in TotalsKeys
    ensures ValidateTotals(JObj(m[k := x]), path) == ValidateTotals(JObj(m), path)
  {
    forall n | n in TotalsKeys ensures Get(m[k := x], n) == Get(m, n) { }
  }

  lemma LineItemStripsUnknown(m: map<string, Json>, k: string, x: Json, path: seq<Segment>)
    requires k !in LineItemKeys
    ensures ValidateLineItem(JObj(m[k := x]), path) == ValidateLineItem(JObj(m), path)
  {
    forall n | n in LineItemKeys ensures Get(m[k := x], n) == Get(m, n) { }
  }

  /** The issues of every top-level field are among the issues of the whole. */
  lemma TopIssuesInclude(m: map<string, Json>, e: Issue)
    ensures e in IssuesOf(MerchantField(Get(m, "merchant"))) ==> e in TopIssues(m)
    ensures e in IssuesOf(TransactionField(Get(m, "transaction"))) ==> e in TopIssues(m)
    ensures e in IssuesOf(TotalsField(Get(m, "totals"))) ==> e in TopIssues(m)
    ensures e in IssuesOf(LineItemsField(Get(m, "line_items"))) ==> e in TopIssues(m)
    ensures e in IssuesOf(NotesField(Get(m, "notes"))) ==> e in TopIssues(m)
  {
  }

  /** One bad line item fails the whole receipt, and its issues, at their index, are reported. */
  lemma {:induction false} BadLineItemFails(m: map<string, Json>, es: seq<Json>, i: nat)
    requires Get(m, "line_items") == Some(JArr(es))
    requires i < |es| && ValidateLineItem(es[i], [Key("line_items"), Index(i)]).Failure?
    ensures Validate(JObj(m)).Invalid?
    ensures forall e :: e in ValidateLineItem(es[i], [Key("line_items"), Index(i)]).error ==> e in Validate(JObj(m)).issues
  {
    var cs := LineItemChecks(es);
    CollectReports(cs, i);
    assert LineItemsField(Get(m, "line_items")) == Collect(cs);
    forall e | e in cs[i].error ensures e in TopIssues(m) {
      TopIssuesInclude(m, e);
    }
    assert cs[i].error[0] in TopIssues(m);
  }

  /** Every amount of `totals` that fails is reported, however many fail. */
  lemma {:induction false} BadAmountsReported(m: map<string, Json>, t: map<string, Json>, k: string)
    requires Get(m, "totals") == Some(JObj(t))
    requires k in TotalsKeys && k in t && Num(t[k], [Key("totals"), Key(k)]).Failure?
    ensures Validate(JObj(m)).Invalid?
    ensures Num(t[k], [Key("totals"), Key(k)]).error[0] in Validate(JObj(m)).issues
  {
    var e := Num(t[k], [Key("totals"), Key(k)]).error[0];
    assert e in IssuesOf(TotalsField(Get(m, "totals"))) by {
      assert [Key("totals")] + [Key(k)] == [Key("totals"), Key(k)];
    }
    TopIssuesInclude(m, e);
  }

  /** An empty merchant name is too small. */
  lemma EmptyNameTooSmall(path: seq<Segment>)
    ensures ValidateMerchant(JObj(map["name" := JStr("")]), path)
      == Failure([Issue(path + [Key("name")], TooSmall)])
  {
    var m: map<string, Json> := map["name" := JStr("")];
    assert MinString(Get(m, "name"), path + [Key("name")]) == Failure([Issue(path + [Key("name")], TooSmall)]);
    assert "address"[0] != "name"[0] && "phone"[0] != "name"[0] && "website"[0] != "name"[0];
    assert Get(m, "address") == None && Get(m, "phone") == None && Get(m, "website") == None;
    var issues := IssuesOf(MinString(Get(m, "name"), path + [Key("name")]))
      + IssuesOf(OptString(Get(m, "address"), path + [Key("address")]))
      + IssuesOf(OptString(Get(m, "phone"), path + [Key("phone")]))
      + IssuesOf(OptString(Get(m, "website"), path + [Key("website")]));
    assert issues == [Issue(path + [Key("name")], TooSmall)];
  }

  /** A line item described by a single space passes: `min(1)` does not trim. */
  lemma SpaceDescriptionAccepted(path: seq<Segment>)
    ensures ValidateLineItem(JObj(map["description" := JStr(" ")]), path)
      == Success(LineItem(" ", None, None, None))
  {
    var l: map<string, Json> := map["description" := JStr(" ")];
    assert Get(l, "quantity") == None && Get(l, "unit_price") == None && Get(l, "total_price") == None;
  }

  // How amounts written as text come out: separators are deleted, not interpreted.

  lemma DigitsExamples()
    ensures DigitsValue("1234") == 1234 && DigitsValue("56") == 56
    ensures DigitsValue("1") == 1 && DigitsValue("23456") == 23456
  {
    assert "1234"[..3] == "123" && "123"[..2] == "12" && "12"[..1] == "1" && "1"[..0] == "";
    assert "56"[..1] == "5" && "5"[..0] == "";
    assert "23456"[..4] == "2345" && "2345"[..3] == "234" && "234"[..2] == "23";
    assert "23"[..1] == "2" && "2"[..0] == "";
  }

  lemma ThousandsValue()
    ensures AllNumberChars("1234.56") && NumberOf("1234.56") == Some(1234.56)
  {
    DigitsExamples();
    NumberOfDecimal("1234", "56");
    assert "1234" + "." + "56" == "1234.56";
    assert FractionValue("56") == 0.56;
  }

  lemma EuropeanValue()
    ensures AllNumberChars("1.23456") && NumberOf("1.23456") == Some(1.23456)
  {
    DigitsExamples();
    NumberOfDecimal("1", "23456");
    assert "1" + "." + "23456" == "1.23456";
    assert FractionValue("23456") == 0.23456;
  }

  /** A comma between two runs of number characters is deleted, and nothing else is. */
  lemma CleanDropsComma(x: string, y: string)
    requires AllNumberChars(x) && AllNumberChars(y)
    ensures Clean(x + "," + y) == x + y
  {
    assert Clean(x + ",") == x by {
      CleanAppend(x, ",");
      CleanIdentity(x);
      assert Clean(",") == [];
      assert x + [] == x;
    }
    CleanAppend(x + ",", y);
    CleanIdentity(y);
  }

  lemma CleanThousands()
    ensures Clean("1,234.56") == "1234.56"
  {
    assert "1,234.56" == "1" + "," + "234.56";
    CleanDropsComma("1", "234.56");
    assert "1" + "234.56" == "1234.56";
  }

  lemma CleanEuropean()
    ensures Clean("1.234,56") == "1.23456"
  {
    assert "1.234,56" == "1.234" + "," + "56";
    CleanDropsComma("1.234", "56");
    assert "1.234" + "56" == "1.23456";
  }

  lemma ThousandsCommaDeleted(path: seq<Segment>)
    ensures Num(JStr("1,234.56"), path) == Success(1234.56)
  {
    CleanThousands();
    ThousandsValue();
  }

  /** A decimal comma is dropped too, so the European `1.234,56` reads as 1.23456. */
  lemma DecimalCommaMisread(path: seq<Segment>)
    ensures Num(JStr("1.234,56"), path) == Success(1.23456)
  {
    CleanEuropean();
    EuropeanValue();
  }

  /** Text without digits cleans to the empty text, which `Number` reads as 0. */
  lemma NoDigitsIsZero(path: seq<Segment>)
    ensures Num(JStr("abc"), path) == Success(0.0)
  {
    assert Clean("abc") == "";
  }

  lemma CurrencySignDropped(path: seq<Segment>)
    ensures Num(JStr("$-12"), path) == Success(-12.0)
  {
    CleanDollar();
    MinusTwelve();
  }

  lemma CleanDollar()
    ensures Clean("$-12") == "-12"
  {
    assert "$-12"[1..] == "-12";
    CleanIdentity("-12");
  }

  lemma MinusTwelve()
    ensures NumberOf("-12") == Some(-12.0)
  {
    NumberOfDigits("12");
    NumberOfNegated("12");
    assert "-" + "12" == "-12";
  }

  /** A `-` inside the number, or a second `.`, makes it NaN and the amount fails. */
  lemma MalformedAmountsFail(path: seq<Segment>)
    ensures Num(JStr("12-3"), path) == Failure([Issue(path, NotFinite)])
    ensures Num(JStr("1.2.3"), path) == Failure([Issue(path, NotFinite)])
  {
    MinusInside();
    SecondPoint();
  }

  lemma MinusInside()
    ensures Clean("12-3") == "12-3" && !IsNumericText("12-3")
  {
    CleanIdentity("12-3");
    assert "12-3"[2] == '-';
  }

  lemma SecondPoint()
    ensures Clean("1.2.3") == "1.2.3" && !IsNumericText("1.2.3")
  {
    CleanIdentity("1.2.3");
    assert "1.2.3"[1] == '.' && "1.2.3"[3] == '.';
  }
}
