/**
 * `POST /api/orders`: validate the multipart form, upload the payment proof,
 * insert the order as `pending`, and announce it to the operator chat with a
 * Confirm and a Reject button. Each step returns early on failure and nothing
 * already done is undone.
 */
module OrderSubmission {
  import opened Wrappers
  import opened Text
  import opened Orders

  /** The uploaded payment-proof file; only its name matters to the route. */
  datatype ProofFile = ProofFile(name: string)

  /**
   * The submitted form as the route reads it. A text field is `None` when it
   * is absent (`formData.get` gives `null`); `amount` is `parseFloat` of its
   * field, `None` standing for NaN.
   */
  datatype SubmissionForm = SubmissionForm(
    orderNumber: Option<string>,
    firstName: Option<string>,
    lastName: Option<string>,
    email: Option<string>,
    phone: Option<string>,
    address: Option<string>,
    city: Option<string>,
    state: Option<string>,
    zipCode: Option<string>,
    amount: Option<int>,
    paymentProof: Option<ProofFile>)

  /** A text field is truthy: present and not empty. */
  predicate Filled(f: Option<string>) {
    f.Some? && f.value != ""
  }

  /** `amount` is truthy: neither NaN nor zero. */
  predicate AmountTruthy(a: Option<int>) {
    a.Some? && a.value != 0
  }

  /** None of the eleven fields is falsy. */
  predicate RequiredPresent(form: SubmissionForm) {
    && Filled(form.orderNumber) && Filled(form.firstName) && Filled(form.lastName)
    && Filled(form.email) && Filled(form.phone) && Filled(form.address)
    && Filled(form.city) && Filled(form.state) && Filled(form.zipCode)
    && AmountTruthy(form.amount) && form.paymentProof.Some?
  }

  /** The route's failures, each with the HTTP status it answers with. */
  datatype SubmitError =
    | UnreadableForm(message: string)
    | MissingFields
    | InvalidEmail
    | InvalidAmount
    | UploadFailed(message: string)
    | InsertFailed(message: string)
    | NotifyFailed(message: string)

  function ErrorStatus(e: SubmitError): (code: int)
    ensures code == 400 <==> e.MissingFields? || e.InvalidEmail? || e.InvalidAmount?
    ensures code == 400 || code == 500
  {
    match e
    case MissingFields => 400
    case InvalidEmail => 400
    case InvalidAmount => 400
    case _ => 500
  }

  /** A form that passed validation, its fields unwrapped. */
  datatype ValidSubmission = ValidSubmission(
    orderNumber: string,
    firstName: string,
    lastName: string,
    email: string,
    phone: string,
    address: string,
    city: string,
    state: string,
    zipCode: string,
    amount: int,
    proof: ProofFile)

  // ---------------------------------------------------------------------------
  // The e-mail shape check, `/^[^\s@]+@[^\s@]+\.[^\s@]+$/`

  /** `[^\s@]`: neither white space nor `@`. */
  predicate InEmailClass(c: char) {
    !IsJsWhitespace(c) && c != '@'
  }

  predicate AllInEmailClass(s: string) {
    forall i :: 0 <= i < |s| ==> InEmailClass(s[i])
  }

  /** A `.` that is neither the first nor the last character. */
  predicate HasInnerDot(d: string) {
    exists i | 0 < i < |d| - 1 :: d[i] == '.'
  }

  /**
   * The check stated as the properties of the address: no white space,
   * exactly one `@`, a non-empty part before it, and a `.` inside the part after it.
   */
  predicate EmailShapeOk(email: string) {
    && NoWhitespace(email)
    && var parts := Split(email, '@');
    && |parts| == 2
    && parts[0] != ""
    && HasInnerDot(parts[1])
  }

  /** The regular expression matches with its `@` at index `a` and its `\.` at index `j`. */
  ghost predicate RegexMatchAt(s: string, a: int, j: int) {
    && 0 < a && a + 1 < j && j + 1 < |s|
    && s[a] == '@' && s[j] == '.'
    && AllInEmailClass(s[..a]) && AllInEmailClass(s[a + 1..j]) && AllInEmailClass(s[j + 1..])
  }

  ghost predicate MatchesEmailRegex(s: string) {
    exists a, j :: RegexMatchAt(s, a, j)
  }

  lemma AllInEmailClassAt(s: string, lo: int, hi: int, k: int)
    requires 0 <= lo <= k < hi <= |s| && AllInEmailClass(s[lo..hi])
    ensures InEmailClass(s[k])
  {
    assert s[lo..hi][k - lo] == s[k];
  }

  /** The property form of the check agrees with the regular expression on every string. */
  lemma EmailShapeMatchesRegex(s: string)
    ensures EmailShapeOk(s) <==> MatchesEmailRegex(s)
  {
    if EmailShapeOk(s) {
      EmailShapeGivesMatch(s);
    }
    if MatchesEmailRegex(s) {
      MatchGivesEmailShape(s);
    }
  }

  /** An address of the described shape matches the regular expression. */
  lemma EmailShapeGivesMatch(s: string)
    requires EmailShapeOk(s)
    ensures MatchesEmailRegex(s)
  {
    var parts := Split(s, '@');
    var local, domain := parts[0], parts[1];
    JoinSplit(s, '@');
    assert s == local + "@" + domain;
    var a := |local|;
    var i :| 0 < i < |domain| - 1 && domain[i] == '.';
    var j := a + 1 + i;
    assert s[..a] == local && s[a + 1..] == domain;
    assert s[a + 1..j] == domain[..i] && s[j + 1..] == domain[i + 1..];
    forall k | 0 <= k < |s| ensures k != a ==> InEmailClass(s[k]) {
      if k < a { assert s[k] == local[k]; }
      if k > a { assert s[k] == domain[k - a - 1]; }
    }
    assert RegexMatchAt(s, a, j);
  }

  /** An address the regular expression matches has the described shape. */
  lemma MatchGivesEmailShape(s: string)
    requires MatchesEmailRegex(s)
    ensures EmailShapeOk(s)
  {
    var a, j :| RegexMatchAt(s, a, j);
    var local, domain := s[..a], s[a + 1..];
    forall k | 0 <= k < |s| && k != a ensures InEmailClass(s[k]) {
      if k < a { AllInEmailClassAt(s, 0, a, k); }
      else if k < j { AllInEmailClassAt(s, a + 1, j, k); }
      else if k > j { AllInEmailClassAt(s, j + 1, |s|, k); }
    }
    assert '@' !in local by {
      forall k | 0 <= k < |local| ensures local[k] != '@' { assert local[k] == s[k]; }
    }
    assert '@' !in domain by {
      forall k | 0 <= k < |domain| ensures domain[k] != '@' { assert domain[k] == s[a + 1 + k]; }
    }
    assert s == Join([local, domain], '@');
    SplitJoin([local, domain], '@');
    assert domain[j - a - 1] == '.';
    assert HasInnerDot(domain);
  }

  // ---------------------------------------------------------------------------
  // Validation (the three checks before any side effect)

  /** The three checks, in the route's order. */
  function Validate(form: SubmissionForm): (r: Result<ValidSubmission, SubmitError>)
    ensures r == Failure(MissingFields) <==> !RequiredPresent(form)
    ensures r == Failure(InvalidEmail) <==> RequiredPresent(form) && !EmailShapeOk(form.email.value)
    ensures r != Failure(InvalidAmount)
    ensures r.Success? ==> r.value.amount != 0 && r.value.email == form.email.value
    ensures r.Success? ==> r.value.orderNumber == form.orderNumber.value && r.value.proof == form.paymentProof.value
  {
    if !RequiredPresent(form) then Failure(MissingFields)
    else if !EmailShapeOk(form.email.value) then Failure(InvalidEmail)
    else if form.amount.None? then Failure(InvalidAmount)
    else Success(ValidSubmission(
      form.orderNumber.value, form.firstName.value, form.lastName.value, form.email.value,
      form.phone.value, form.address.value, form.city.value, form.state.value,
      form.zipCode.value, form.amount.value, form.paymentProof.value))
  }

  /** Validation fails exactly on missing fields or a malformed address, each answered with 400. */
  lemma ValidationErrorsAre400(form: SubmissionForm)
    ensures Validate(form).Failure? <==> !RequiredPresent(form) || !MatchesEmailRegex(form.email.value)
    ensures Validate(form).Failure? ==> ErrorStatus(Validate(form).error) == 400
  {
    if RequiredPresent(form) {
      EmailShapeMatchesRegex(form.email.value);
    }
  }

  // ---------------------------------------------------------------------------
  // Storage key, row and notification

  /** The object key of the uploaded proof, `${orderNumber}-${paymentProof.name}`. */
  function StorageKey(orderNumber: string, fileName: string): string {
    orderNumber + "-" + fileName
  }

  /** Keys of order numbers of one length (the checkout's are all nine characters) never collide. */
  lemma StorageKeyInjective(n1: string, f1: string, n2: string, f2: string)
    requires |n1| == |n2|
    ensures StorageKey(n1, f1) == StorageKey(n2, f2) ==> n1 == n2 && f1 == f2
  {
    if StorageKey(n1, f1) == StorageKey(n2, f2) {
      var k := StorageKey(n1, f1);
      assert n1 == k[..|n1|] == n2;
      assert f1 == k[|n1| + 1..] == f2;
    }
  }

  /** `orderData`: the validated fields, the proof URL, status `pending`, and the insert time. */
  function NewOrderRow(v: ValidSubmission, proofUrl: string, createdAt: string): OrderRow {
    OrderRow(v.orderNumber, v.firstName, v.lastName, v.email, v.phone, v.address,
             v.city, v.state, v.zipCode, v.amount, proofUrl, Pending, createdAt)
  }

  /** The row stores every form field under its column, zip code included. */
  predicate RowFromForm(form: SubmissionForm, row: OrderRow) {
    && form.orderNumber == Some(row.orderNumber) && form.firstName == Some(row.firstName)
    && form.lastName == Some(row.lastName) && form.email == Some(row.email)
    && form.phone == Some(row.phone) && form.address == Some(row.address)
    && form.city == Some(row.city) && form.state == Some(row.state)
    && form.zipCode == Some(row.zipCode) && form.amount == Some(row.amount)
  }

  /** What a valid submission inserts: the form's fields unchanged, the given URL, status `pending`. */
  lemma NewOrderRowFromForm(form: SubmissionForm, proofUrl: string, createdAt: string)
    requires Validate(form).Success?
    ensures var row := NewOrderRow(Validate(form).value, proofUrl, createdAt);
      RowFromForm(form, row) && row.status == Pending && row.paymentProofUrl == proofUrl
      && row.createdAt == createdAt
  {
  }

  /** A callback payload, `${action}_${orderNumber}`. */
  function CallbackPayload(action: string, orderNumber: string): string {
    action + "_" + orderNumber
  }

  const ConfirmAction: string := "confirm"
  const RejectAction: string := "reject"

  datatype InlineButton = InlineButton(text: string, callbackData: string)

  /** The single keyboard row of the notification. */
  function DecisionKeyboard(orderNumber: string): (k: seq<InlineButton>)
    ensures |k| == 2
    ensures k[0].callbackData == ConfirmAction + "_" + orderNumber
    ensures k[1].callbackData == RejectAction + "_" + orderNumber
  {
    [InlineButton("\U{2705} Confirm", CallbackPayload(ConfirmAction, orderNumber)),
     InlineButton("\U{274C} Reject", CallbackPayload(RejectAction, orderNumber))]
  }

  /** The operator notification: the inserted order, its proof link, its status label and the keyboard. */
  datatype Notification = Notification(
    order: OrderRow,
    proofUrl: string,
    statusLabel: string,
    keyboard: seq<InlineButton>)

  function OrderNotification(order: OrderRow, proofUrl: string): (m: Notification)
    ensures m.order == order && m.proofUrl == proofUrl
    ensures order.status == Pending ==> m.statusLabel == "Pending"
    ensures |m.keyboard| == 2
    ensures m.keyboard[0].callbackData == "confirm_" + order.orderNumber
    ensures m.keyboard[1].callbackData == "reject_" + order.orderNumber
  {
    StatusLabels();
    Notification(order, proofUrl, StatusLabel(order.status), DecisionKeyboard(order.orderNumber))
  }

  // ---------------------------------------------------------------------------
  // The handler

  datatype SubmitResponse = Saved(order: OrderRow) | Failed(error: SubmitError)

  /**
   * The route's handler. The outcomes of the calls it cannot see are inputs:
   * `formError` is `Some(message)` when reading the multipart body throws, and
   * `uploadError`, `insertError` and `notifyError` when that call fails;
   * `urlOf` is the bucket's public-URL scheme and `now` the insert time.
   * `notice` is the notification the route attempts to send.
   */
  method SubmitOrder(db: OrderDatabase, formError: Option<string>, form: SubmissionForm,
                     uploadError: Option<string>, urlOf: string -> string,
                     insertError: Option<string>, notifyError: Option<string>, now: string)
    returns (resp: SubmitResponse, notice: Option<Notification>)
    modifies db
    ensures old(db.ProofsStored(urlOf)) ==> db.ProofsStored(urlOf)
    ensures formError.Some? ==>
      && resp == Failed(UnreadableForm(formError.value)) && notice == None
      && db.orders == old(db.orders) && db.proofObjects == old(db.proofObjects)
    ensures formError.None? && Validate(form).Failure? ==>
      && resp == Failed(Validate(form).error) && notice == None
      && db.orders == old(db.orders) && db.proofObjects == old(db.proofObjects)
    ensures formError.None? && Validate(form).Success? && uploadError.Some? ==>
      && resp == Failed(UploadFailed(uploadError.value)) && notice == None
      && db.orders == old(db.orders) && db.proofObjects == old(db.proofObjects)
    ensures formError.None? && Validate(form).Success? && uploadError.None? ==>
      var v := Validate(form).value;
      var key := StorageKey(form.orderNumber.value, form.paymentProof.value.name);
      var row := NewOrderRow(v, urlOf(key), now);
      && db.proofObjects == old(db.proofObjects) + [key]
      && (insertError.Some? ==>
            resp == Failed(InsertFailed(insertError.value)) && notice == None
            && db.orders == old(db.orders))
      && (insertError.None? ==>
            && db.orders == old(db.orders) + [row]
            && notice == Some(OrderNotification(row, urlOf(key)))
            && resp == (if notifyError.Some? then Failed(NotifyFailed(notifyError.value)) else Saved(row)))
  {
    notice := None;
    if formError.Some? {
      resp := Failed(UnreadableForm(formError.value));
      return;
    }
    var checked := Validate(form);
    if checked.Failure? {
      resp := Failed(checked.error);
      return;
    }
    var v := checked.value;

    var paymentProofUrl: Option<string> := None;
    var key := StorageKey(v.orderNumber, v.proof.name);
    if uploadError.Some? {
      resp := Failed(UploadFailed(uploadError.value));
      return;
    }
    ghost var rows, objects := db.orders, db.proofObjects;
    db.Upload(key);
    paymentProofUrl := Some(urlOf(key));

    var row := NewOrderRow(v, paymentProofUrl.value, now);
    if ProofsStoredIn(rows, objects, urlOf) {
      ProofsStoredAfterSubmit(rows, objects, urlOf, key, row);
    }
    if insertError.Some? {
      resp := Failed(InsertFailed(insertError.value));
      return;
    }
    db.Insert(row);

    notice := Some(OrderNotification(row, paymentProofUrl.value));
    if notifyError.Some? {
      resp := Failed(NotifyFailed(notifyError.value));
      return;
    }
    resp := Saved(row);
  }
}
