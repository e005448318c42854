/**
 * `POST /api/orders/telegram/callback`: the operator pressed Confirm or Reject.
 * The route reads the button payload, finds the order, sets its status, edits
 * the operator's message and mails the buyer. There is no guard on the current
 * status and no replay suppression.
 */
module DecisionCallback {
  import opened Wrappers
  import opened Text
  import opened Orders
  import opened OrderSubmission

  /** `callback_query.message`: the chat and the message that carried the buttons. */
  datatype MessageRef = MessageRef(chatId: int, messageId: int)

  /** `callback_query`; either part may be absent from a hand-made body. */
  datatype CallbackQuery = CallbackQuery(message: Option<MessageRef>, data: Option<string>)

  /** The request body: not JSON at all, or a JSON object with or without a truthy `callback_query`. */
  datatype CallbackRequest = MalformedJson | JsonBody(callbackQuery: Option<CallbackQuery>)

  /** The payload's action and order number. */
  datatype Decision = Decision(action: string, orderNumber: string)

  /** `data` is `action_orderNumber`, possibly followed by further `_`-separated text. */
  predicate PayloadStartsWith(data: string, action: string, orderNumber: string) {
    var lead := CallbackPayload(action, orderNumber);
    && lead <= data
    && (|data| == |lead| || data[|lead|] == '_')
  }

  /**
   * `const [action, orderNumber] = callbackData.split("_")` followed by the
   * `!action || !orderNumber` guard: pieces 0 and 1 of a split on every `_`,
   * both required non-empty; further pieces are ignored.
   */
  function ParseCallbackData(data: string): (r: Option<Decision>)
    ensures r.Some? ==>
      && r.value.action != "" && r.value.orderNumber != ""
      && '_' !in r.value.action && '_' !in r.value.orderNumber
      && PayloadStartsWith(data, r.value.action, r.value.orderNumber)
  {
    var pieces := Split(data, '_');
    var action := pieces[0];
    if action == "" || |pieces| < 2 || pieces[1] == "" then None
    else
      SplitLeadingPieces(data, '_');
      Some(Decision(action, pieces[1]))
  }

  /** Parsing accepts `data` with decision `(a, n)` exactly when `data` starts with a well-formed `a_n`. */
  lemma ParseCallbackDataIff(data: string, a: string, n: string)
    ensures ParseCallbackData(data) == Some(Decision(a, n)) <==>
      a != "" && n != "" && '_' !in a && '_' !in n && PayloadStartsWith(data, a, n)
  {
    if a != "" && n != "" && '_' !in a && '_' !in n && PayloadStartsWith(data, a, n) {
      var lead := CallbackPayload(a, n);
      if |data| == |lead| {
        assert data == a + ['_'] + n;
        SplitFree(n, '_');
      } else {
        var rest := data[|lead| + 1..];
        assert data == a + ['_'] + (n + ['_'] + rest);
        SplitAfterPiece(n, '_', rest);
      }
      SplitAfterPiece(a, '_', data[|a| + 1..]);
      assert data == a + ['_'] + data[|a| + 1..];
    }
  }

  /** The buttons' payloads parse back to their action and order number, for any `_`-free order number. */
  lemma PayloadRoundTrip(action: string, n: string)
    requires action != "" && '_' !in action
    requires n != "" && '_' !in n
    ensures ParseCallbackData(CallbackPayload(action, n)) == Some(Decision(action, n))
  {
    ParseCallbackDataIff(CallbackPayload(action, n), action, n);
  }

  /**
   * An order number containing `_` does not survive the round trip: only the
   * part before its first `_` is read back.
   */
  lemma PayloadTruncatedAtUnderscore(action: string, head: string, tail: string)
    requires action != "" && '_' !in action
    requires head != "" && '_' !in head
    ensures ParseCallbackData(CallbackPayload(action, head + "_" + tail)) == Some(Decision(action, head))
  {
    var data := CallbackPayload(action, head + "_" + tail);
    assert data == CallbackPayload(action, head) + "_" + tail;
    ParseCallbackDataIff(data, action, head);
  }

  /** A payload without `_` (such as `garbled`) has no order number and is refused. */
  lemma NoSeparatorRefused(data: string)
    requires '_' !in data
    ensures ParseCallbackData(data) == None
  {
    SplitFree(data, '_');
  }

  /** A payload starting with `_` (such as `_KDF-1`) has an empty action and is refused. */
  lemma EmptyActionRefused(rest: string)
    ensures ParseCallbackData("_" + rest) == None
  {
    SplitAfterPiece("", '_', rest);
    assert "_" + rest == "" + ['_'] + rest;
  }

  /**
   * A payload whose first `_` ends it or is followed by another `_` (such as
   * `confirm_`) has an empty order number and is refused.
   */
  lemma EmptyOrderNumberRefused(action: string, rest: string)
    requires '_' !in action
    requires rest == "" || rest[0] == '_'
    ensures ParseCallbackData(action + "_" + rest) == None
  {
    SplitAfterPiece(action, '_', rest);
    if rest == "" {
      assert Split(rest, '_') == [""];
    } else {
      SplitAfterPiece("", '_', rest[1..]);
      assert rest == "" + ['_'] + rest[1..];
    }
  }

  /** `action === "confirm" ? "confirmed" : "rejected"`: a two-way branch, not an allow-list. */
  function NewStatusFor(action: string): (s: Status)
    ensures s == Confirmed <==> action == ConfirmAction
    ensures s == Rejected <==> action != ConfirmAction
  {
    if action == ConfirmAction then Confirmed else Rejected
  }

  /** Both buttons of the operator notification decide their order as labelled. */
  lemma KeyboardDecides(n: string)
    requires n != "" && '_' !in n
    ensures var k := DecisionKeyboard(n);
      && ParseCallbackData(k[0].callbackData) == Some(Decision(ConfirmAction, n))
      && ParseCallbackData(k[1].callbackData) == Some(Decision(RejectAction, n))
      && NewStatusFor(ConfirmAction) == Confirmed
      && NewStatusFor(RejectAction) == Rejected
  {
    PayloadRoundTrip(ConfirmAction, n);
    PayloadRoundTrip(RejectAction, n);
  }

  const ConfirmedSubject: string := "Your Order Has Been Confirmed!"
  const RejectedSubject: string := "Your Order Has Been Rejected"

  /** The two e-mail templates with the order fields each one shows. */
  datatype EmailBody =
    | ConfirmationBody(firstName: string, orderNumber: string, amount: int,
                       address: string, city: string, state: string, zipCode: string)
    | RejectionBody(firstName: string, orderNumber: string, amount: int)

  datatype Email = Email(to: string, subject: string, body: EmailBody)

  /** The mail to the buyer: subject and template chosen by the same `action === "confirm"` test. */
  function DecisionEmail(order: OrderRow, action: string): (m: Email)
    ensures m.to == order.email
    ensures m.subject == ConfirmedSubject <==> NewStatusFor(action) == Confirmed
    ensures m.subject == RejectedSubject <==> NewStatusFor(action) == Rejected
    ensures m.body.ConfirmationBody? <==> NewStatusFor(action) == Confirmed
    ensures m.body.orderNumber == order.orderNumber && m.body.firstName == order.firstName
  {
    var subject := if action == ConfirmAction then ConfirmedSubject else RejectedSubject;
    var body :=
      if action == ConfirmAction then
        ConfirmationBody(order.firstName, order.orderNumber, order.amount,
                         order.address, order.city, order.state, order.zipCode)
      else RejectionBody(order.firstName, order.orderNumber, order.amount);
    Email(order.email, subject, body)
  }

  /** The edited operator message: the order as it was read, with the new status label. */
  datatype MessageEdit = MessageEdit(chatId: int, messageId: int, order: OrderRow, statusLabel: string)

  datatype CallbackError =
    | MalformedBody
    | NoCallbackQuery
    | MissingQueryField
    | InvalidCallbackData
    | OrderNotFound
    | UpdateFailed
    | EditFailed(message: string)
    | MailFailed(message: string)

  function CallbackErrorStatus(e: CallbackError): (code: int)
    ensures code == 400 <==> e.NoCallbackQuery? || e.InvalidCallbackData?
    ensures code == 404 <==> e.OrderNotFound?
    ensures code == 400 || code == 404 || code == 500
  {
    match e
    case NoCallbackQuery => 400
    case InvalidCallbackData => 400
    case OrderNotFound => 404
    case _ => 500
  }

  datatype CallbackResponse = StatusUpdated | CallbackFailed(error: CallbackError)

  /** What the route has found once the order is loaded. */
  datatype Target = Target(message: MessageRef, decision: Decision, order: OrderRow)

  /**
   * The steps before the update, in the route's order: parse the body, require
   * `callback_query`, read its message and data, parse the payload, load the order.
   * `lookupError` says the lookup call itself failed; the route answers that as
   * an unknown order, whatever the table holds.
   */
  function ResolveCallback(rows: seq<OrderRow>, req: CallbackRequest, lookupError: bool): (r: Result<Target, CallbackError>)
    ensures lookupError ==> r.Failure?
    ensures r.Success? ==>
      && req.JsonBody? && req.callbackQuery.Some?
      && req.callbackQuery.value.message == Some(r.value.message)
      && req.callbackQuery.value.data.Some?
      && ParseCallbackData(req.callbackQuery.value.data.value) == Some(r.value.decision)
      && r.value.order in rows
      && r.value.order.orderNumber == r.value.decision.orderNumber
  {
    if req.MalformedJson? then Failure(MalformedBody)
    else if req.callbackQuery.None? then Failure(NoCallbackQuery)
    else
      var q := req.callbackQuery.value;
      if q.message.None? || q.data.None? then Failure(MissingQueryField)
      else
        match ParseCallbackData(q.data.value)
        case None => Failure(InvalidCallbackData)
        case Some(d) =>
          if lookupError then Failure(OrderNotFound)
          else match SelectSingle(rows, d.orderNumber)
          case None => Failure(OrderNotFound)
          case Some(order) => Success(Target(q.message.value, d, order))
  }

  /** A payload naming an order number that no row has is answered 404. */
  lemma UnknownOrderIsNotFound(rows: seq<OrderRow>, m: MessageRef, data: string, lookupError: bool)
    requires ParseCallbackData(data).Some?
    requires forall i :: 0 <= i < |rows| ==> rows[i].orderNumber != ParseCallbackData(data).value.orderNumber
    ensures ResolveCallback(rows, JsonBody(Some(CallbackQuery(Some(m), Some(data)))), lookupError) == Failure(OrderNotFound)
  {
  }

  /** A parsed payload naming an order number that two rows share is answered 404 as well. */
  lemma DuplicateOrderIsNotFound(rows: seq<OrderRow>, m: MessageRef, data: string, i: int, j: int, lookupError: bool)
    requires ParseCallbackData(data).Some?
    requires 0 <= i < j < |rows|
    requires rows[i].orderNumber == rows[j].orderNumber == ParseCallbackData(data).value.orderNumber
    ensures ResolveCallback(rows, JsonBody(Some(CallbackQuery(Some(m), Some(data)))), lookupError) == Failure(OrderNotFound)
  {
  }

  /** A failed lookup is answered 404 for every well-formed payload, even one naming a stored order. */
  lemma LookupErrorIsNotFound(rows: seq<OrderRow>, m: MessageRef, data: string)
    requires ParseCallbackData(data).Some?
    ensures ResolveCallback(rows, JsonBody(Some(CallbackQuery(Some(m), Some(data)))), true) == Failure(OrderNotFound)
  {
  }

  /**
   * A payload `a_n` with a non-empty, `_`-free action and order number, pressed
   * on message `m`, resolves, when the lookup succeeds, to its decision and the one stored
   * order numbered `n`.
   */
  lemma StoredOrderResolves(rows: seq<OrderRow>, m: MessageRef, a: string, n: string, i: int)
    requires a != "" && '_' !in a && n != "" && '_' !in n
    requires OnlyMatch(rows, n, i)
    ensures ResolveCallback(rows, JsonBody(Some(CallbackQuery(Some(m), Some(a + "_" + n)))), false)
      == Success(Target(m, Decision(a, n), rows[i]))
  {
    PayloadRoundTrip(a, n);
  }

  /**
   * When the lookup succeeds, pressing Confirm (`confirm_` + n) on the one stored order numbered `n` makes
   * its row `confirmed`; pressing Reject (`reject_` + n) makes it `rejected`.
   */
  lemma ButtonsDecideStoredOrder(rows: seq<OrderRow>, m: MessageRef, n: string, i: int)
    requires n != "" && '_' !in n
    requires OnlyMatch(rows, n, i)
    ensures var r := ResolveCallback(rows, JsonBody(Some(CallbackQuery(Some(m), Some(ConfirmAction + "_" + n)))), false);
      && r.Success? && r.value.order == rows[i]
      && WithStatus(rows, n, NewStatusFor(r.value.decision.action))[i].status == Confirmed
    ensures var r := ResolveCallback(rows, JsonBody(Some(CallbackQuery(Some(m), Some(RejectAction + "_" + n)))), false);
      && r.Success? && r.value.order == rows[i]
      && WithStatus(rows, n, NewStatusFor(r.value.decision.action))[i].status == Rejected
  {
    StoredOrderResolves(rows, m, ConfirmAction, n, i);
    StoredOrderResolves(rows, m, RejectAction, n, i);
  }

  /** The error each malformed request gets, before any lookup. */
  lemma MalformedRequestsRefused(rows: seq<OrderRow>, m: Option<MessageRef>, data: string, lookupError: bool)
    ensures ResolveCallback(rows, MalformedJson, lookupError) == Failure(MalformedBody)
    ensures ResolveCallback(rows, JsonBody(None), lookupError) == Failure(NoCallbackQuery)
    ensures ResolveCallback(rows, JsonBody(Some(CallbackQuery(None, Some(data)))), lookupError) == Failure(MissingQueryField)
    ensures ResolveCallback(rows, JsonBody(Some(CallbackQuery(m, None))), lookupError) == Failure(MissingQueryField)
    ensures m.Some? && ParseCallbackData(data).None? ==>
      ResolveCallback(rows, JsonBody(Some(CallbackQuery(m, Some(data)))), lookupError) == Failure(InvalidCallbackData)
  {
  }

  /** The rows matching `n` after `n`'s status is set: the same rows, now with that status. */
  lemma {:induction false} MatchingAfterUpdate(rows: seq<OrderRow>, n: string, s: Status)
    ensures |Matching(WithStatus(rows, n, s), n)| == |Matching(rows, n)|
    ensures forall i :: 0 <= i < |Matching(rows, n)| ==>
      Matching(WithStatus(rows, n, s), n)[i] == Matching(rows, n)[i].(status := s)
    decreases |rows|
  {
    if |rows| > 0 {
      MatchingAfterUpdate(rows[1..], n, s);
      var updated := WithStatus(rows, n, s);
      assert updated[1..] == WithStatus(rows[1..], n, s);
      assert SameExceptStatus(rows[0], updated[0]);
      var m, rest := Matching(rows, n), Matching(rows[1..], n);
      var mu, restu := Matching(updated, n), Matching(updated[1..], n);
      if rows[0].orderNumber == n {
        assert updated[0] == rows[0].(status := s);
        assert m == [rows[0]] + rest;
        assert mu == [updated[0]] + restu;
        forall i | 0 < i < |m| ensures mu[i] == m[i].(status := s) {
          assert mu[i] == restu[i - 1] && m[i] == rest[i - 1];
        }
      } else {
        assert updated[0] == rows[0];
        assert m == rest;
        assert mu == restu;
      }
    }
  }

  /**
   * A decided order can be decided again: after its status is set, the same
   * callback, with both lookups succeeding, resolves to the same order with the new status, and applying its
   * update a second time leaves the table as one application did.
   */
  lemma ReplayResolvesAgain(rows: seq<OrderRow>, req: CallbackRequest)
    requires ResolveCallback(rows, req, false).Success?
    ensures var t := ResolveCallback(rows, req, false).value;
      var s := NewStatusFor(t.decision.action);
      var after := WithStatus(rows, t.decision.orderNumber, s);
      && ResolveCallback(after, req, false) == Success(t.(order := t.order.(status := s)))
      && WithStatus(after, t.decision.orderNumber, s) == after
  {
    var t := ResolveCallback(rows, req, false).value;
    var n := t.decision.orderNumber;
    var s := NewStatusFor(t.decision.action);
    var after := WithStatus(rows, n, s);
    MatchingAfterUpdate(rows, n, s);
    assert SelectSingle(rows, n) == Some(t.order);
    assert SelectSingle(after, n) == Some(t.order.(status := s));
    WithStatusIdempotent(rows, n, s);
  }

  /**
   * The route's handler. `lookupError` and `updateError` say the lookup or the
   * update call failed; `editError`
   * and `mailError` are `Some(message)` when the message edit or the mail
   * delivery throws. `edit` and `mail` are what the route attempts to send.
   */
  method HandleCallback(db: OrderDatabase, req: CallbackRequest, lookupError: bool, updateError: bool,
                        editError: Option<string>, mailError: Option<string>)
    returns (resp: CallbackResponse, edit: Option<MessageEdit>, mail: Option<Email>)
    modifies db
    ensures db.proofObjects == old(db.proofObjects)
    ensures forall urlOf: string -> string :: old(db.ProofsStored(urlOf)) ==> db.ProofsStored(urlOf)
    ensures ResolveCallback(old(db.orders), req, lookupError).Failure? ==>
      && resp == CallbackFailed(ResolveCallback(old(db.orders), req, lookupError).error)
      && db.orders == old(db.orders) && edit == None && mail == None
    ensures ResolveCallback(old(db.orders), req, lookupError).Success? ==>
      var t := ResolveCallback(old(db.orders), req, lookupError).value;
      var s := NewStatusFor(t.decision.action);
      && (updateError ==>
            resp == CallbackFailed(UpdateFailed) && db.orders == old(db.orders)
            && edit == None && mail == None)
      && (!updateError ==>
            && db.orders == WithStatus(old(db.orders), t.decision.orderNumber, s)
            && edit == Some(MessageEdit(t.message.chatId, t.message.messageId, t.order, StatusLabel(s)))
            && (editError.Some? ==> resp == CallbackFailed(EditFailed(editError.value)) && mail == None)
            && (editError.None? ==>
                  && mail == Some(DecisionEmail(t.order, t.decision.action))
                  && resp == (if mailError.Some? then CallbackFailed(MailFailed(mailError.value)) else StatusUpdated)))
  {
    edit, mail := None, None;
    var target := ResolveCallback(db.orders, req, lookupError);
    if target.Failure? {
      resp := CallbackFailed(target.error);
      return;
    }
    var t := target.value;

    var newStatus := NewStatusFor(t.decision.action);
    if updateError {
      resp := CallbackFailed(UpdateFailed);
      return;
    }
    ghost var rows := db.orders;
    db.UpdateStatus(t.decision.orderNumber, newStatus);
    forall urlOf: string -> string | ProofsStoredIn(rows, db.proofObjects, urlOf)
      ensures ProofsStoredIn(db.orders, db.proofObjects, urlOf)
    {
      ProofsStoredAfterUpdate(rows, db.proofObjects, urlOf, t.decision.orderNumber, newStatus);
    }

    edit := Some(MessageEdit(t.message.chatId, t.message.messageId, t.order, StatusLabel(newStatus)));
    if editError.Some? {
      resp := CallbackFailed(EditFailed(editError.value));
      return;
    }

    mail := Some(DecisionEmail(t.order, t.decision.action));
    if mailError.Some? {
      resp := CallbackFailed(MailFailed(mailError.value));
      return;
    }
    resp := StatusUpdated;
  }
}
