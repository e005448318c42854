/**
 * The checkout page: a three-step wizard (shipping details, payment proof,
 * confirmation) whose handlers update the component state in place. The
 * second step posts the order form to `POST /api/orders` and moves on only
 * when that request succeeds.
 */
module Checkout {
  import opened Wrappers
  import opened Text
  import opened OrderSubmission
  import opened DecisionCallback

  /** The keys of `formData`, each initially `""`. */
  const FieldIds: seq<string> := ["firstName", "lastName", "email", "address", "city", "state", "zipCode", "phone"]

  // ---------------------------------------------------------------------------
  // The step machine

  /** `nextStep`: one step forward unless already on the last one. */
  function NextStepValue(step: int): (r: int)
    ensures 1 <= step <= 3 ==> 1 <= r <= 3
    ensures step < 3 ==> r == step + 1
    ensures step >= 3 ==> r == step
  {
    if step < 3 then step + 1 else step
  }

  /** `prevStep`: one step back unless already on the first one. */
  function PrevStepValue(step: int): (r: int)
    ensures 1 <= step <= 3 ==> 1 <= r <= 3
    ensures step > 1 ==> r == step - 1
    ensures step <= 1 ==> r == step
  {
    if step > 1 then step - 1 else step
  }

  datatype Move = Next | Prev

  /** The step after a sequence of `nextStep` / `prevStep` calls, in order. */
  function StepAfter(step: int, moves: seq<Move>): int
    decreases |moves|
  {
    if |moves| == 0 then step
    else StepAfter(if moves[0].Next? then NextStepValue(step) else PrevStepValue(step), moves[1..])
  }

  /** From any step in range, every sequence of moves stays in 1..3. */
  lemma {:induction false} StepAfterInRange(step: int, moves: seq<Move>)
    requires 1 <= step <= 3
    ensures 1 <= StepAfter(step, moves) <= 3
    decreases |moves|
  {
    if |moves| > 0 {
      StepAfterInRange(if moves[0].Next? then NextStepValue(step) else PrevStepValue(step), moves[1..]);
    }
  }

  /** Going back undoes going forward, and going forward undoes going back, away from the ends. */
  lemma NextPrevInverse(step: int)
    ensures 1 <= step < 3 ==> PrevStepValue(NextStepValue(step)) == step
    ensures 1 < step <= 3 ==> NextStepValue(PrevStepValue(step)) == step
  {
  }

  // ---------------------------------------------------------------------------
  // The order number

  /**
   * `KDF-${Math.floor(10000 + Math.random() * 90000)}`, with `k` standing for
   * `Math.floor(Math.random() * 90000)`: a five-digit number from 10000 to 99999.
   */
  function OrderNumberFor(k: int): (s: string)
    requires 0 <= k < 90000
    ensures |s| == 9 && s[..4] == "KDF-"
    ensures AllDigits(s[4..]) && s[4] != '0' && DigitsValue(s[4..]) == 10000 + k
    ensures '_' !in s
  {
    var n := 10000 + k;
    NatToStringLength(n, 4);
    NatToStringLeadingDigit(n);
    NatToStringValue(n);
    var s := "KDF-" + NatToString(n);
    assert s[4..] == NatToString(n);
    assert forall i :: 4 <= i < |s| ==> IsDigit(s[i]) by {
      forall i | 4 <= i < |s| ensures IsDigit(s[i]) {
        assert s[i] == s[4..][i - 4];
      }
    }
    s
  }

  /** Both buttons announced for a checkout order decide that order as labelled. */
  lemma CheckoutOrderDecidable(k: int)
    requires 0 <= k < 90000
    ensures var n := OrderNumberFor(k); var keyboard := DecisionKeyboard(n);
      && ParseCallbackData(keyboard[0].callbackData) == Some(Decision(ConfirmAction, n))
      && ParseCallbackData(keyboard[1].callbackData) == Some(Decision(RejectAction, n))
  {
    KeyboardDecides(OrderNumberFor(k));
  }

  // ---------------------------------------------------------------------------
  // The request of the second step

  /** The string map has every key of the form. */
  predicate HasAllFields(formData: map<string, string>) {
    forall id :: id in FieldIds ==> id in formData
  }

  /** The `FormData` the second step sends: the page's fields, `amount` `"600000"`, and the proof. */
  function OrderRequest(orderNumber: string, formData: map<string, string>, proof: ProofFile): (form: SubmissionForm)
    requires HasAllFields(formData)
    ensures form.orderNumber == Some(orderNumber) && form.amount == Some(600000)
    ensures form.paymentProof == Some(proof)
    ensures form.firstName == Some(formData["firstName"]) && form.lastName == Some(formData["lastName"])
    ensures form.email == Some(formData["email"]) && form.phone == Some(formData["phone"])
    ensures form.address == Some(formData["address"]) && form.city == Some(formData["city"])
    ensures form.state == Some(formData["state"]) && form.zipCode == Some(formData["zipCode"])
  {
    SubmissionForm(
      Some(orderNumber), Some(formData["firstName"]), Some(formData["lastName"]),
      Some(formData["email"]), Some(formData["phone"]), Some(formData["address"]),
      Some(formData["city"]), Some(formData["state"]), Some(formData["zipCode"]),
      Some(600000), Some(proof))
  }

  /**
   * The route accepts a checkout request exactly when the order number and all
   * eight fields are non-empty and the e-mail passes the shape check.
   */
  lemma OrderRequestAccepted(orderNumber: string, formData: map<string, string>, proof: ProofFile)
    requires HasAllFields(formData)
    ensures Validate(OrderRequest(orderNumber, formData, proof)).Success? <==>
      && orderNumber != ""
      && (forall id :: id in FieldIds ==> formData[id] != "")
      && MatchesEmailRegex(formData["email"])
  {
    var form := OrderRequest(orderNumber, formData, proof);
    EmailShapeMatchesRegex(formData["email"]);
    assert (forall id :: id in FieldIds ==> formData[id] != "") <==>
      && formData["firstName"] != "" && formData["lastName"] != "" && formData["email"] != ""
      && formData["address"] != "" && formData["city"] != "" && formData["state"] != ""
      && formData["zipCode"] != "" && formData["phone"] != "";
  }

  // ---------------------------------------------------------------------------
  // The component state

  class CheckoutPage {
    var step: int
    var formData: map<string, string>
    var paymentProof: Option<ProofFile>
    var orderNumber: string
    var isLoading: bool

    /** The step is one of the three, and every form field has a value. */
    ghost predicate Valid()
      reads this
    {
      1 <= step <= 3 && HasAllFields(formData)
    }

    /** The initial state: step 1, empty fields, no proof, no order number yet, not loading. */
    constructor ()
      ensures Valid()
      ensures step == 1 && paymentProof == None && orderNumber == "" && !isLoading
      ensures formData.Keys == set id | id in FieldIds
      ensures forall id :: id in formData ==> formData[id] == ""
    {
      step := 1;
      formData := map["firstName" := "", "lastName" := "", "email" := "", "address" := "",
                      "city" := "", "state" := "", "zipCode" := "", "phone" := ""];
      paymentProof := None;
      orderNumber := "";
      isLoading := false;
    }

    /** The mount effect: the random order number. */
    method AssignOrderNumber(k: int)
      requires 0 <= k < 90000
      requires Valid()
      modifies this`orderNumber
      ensures Valid()
      ensures orderNumber == OrderNumberFor(k)
    {
      orderNumber := OrderNumberFor(k);
    }

    /** `handleInputChange`: the field named `id` takes `value`; every other field keeps its value. */
    method HandleInputChange(id: string, value: string)
      requires Valid()
      modifies this`formData
      ensures Valid()
      ensures formData == old(formData)[id := value]
      ensures forall other :: other in old(formData) && other != id ==> formData[other] == old(formData)[other]
    {
      formData := formData[id := value];
    }

    /** `handleFileChange`: `files` is `None` when the input has no file list. */
    method HandleFileChange(files: Option<seq<ProofFile>>)
      requires Valid()
      modifies this`paymentProof
      ensures Valid()
      ensures files.Some? && |files.value| > 0 ==> paymentProof == Some(files.value[0])
      ensures !(files.Some? && |files.value| > 0) ==> paymentProof == old(paymentProof)
    {
      if files.Some? && |files.value| > 0 {
        paymentProof := Some(files.value[0]);
      }
    }

    method NextStep()
      requires Valid()
      modifies this`step
      ensures Valid()
      ensures step == NextStepValue(old(step))
    {
      if step < 3 {
        step := step + 1;
      }
    }

    method PrevStep()
      requires Valid()
      modifies this`step
      ensures Valid()
      ensures step == PrevStepValue(old(step))
    {
      if step > 1 {
        step := step - 1;
      }
    }

    /** `handleStep1Submit`: the shipping form only moves the wizard on. */
    method HandleStep1Submit()
      requires Valid()
      modifies this`step
      ensures Valid()
      ensures step == NextStepValue(old(step))
    {
      NextStep();
    }

    /**
     * The first half of `handleStep2Submit`, up to the request: without a proof
     * nothing is sent and nothing changes; otherwise loading starts and the
     * request is the page's order.
     */
    method HandleStep2Submit() returns (request: Option<SubmissionForm>)
      requires Valid()
      modifies this`isLoading
      ensures Valid()
      ensures paymentProof.None? ==> request == None && isLoading == old(isLoading)
      ensures paymentProof.Some? ==>
        isLoading && request == Some(OrderRequest(orderNumber, formData, paymentProof.value))
    {
      if paymentProof.None? {
        return None;
      }
      isLoading := true;
      request := Some(OrderRequest(orderNumber, formData, paymentProof.value));
    }

    /** The second half of `handleStep2Submit`: loading stops, and only an ok response moves on. */
    method ReceiveOrderResponse(ok: bool)
      requires Valid()
      modifies this`isLoading, this`step
      ensures Valid()
      ensures !isLoading
      ensures step == if ok then NextStepValue(old(step)) else old(step)
    {
      isLoading := false;
      if ok {
        NextStep();
      }
    }
  }
}
