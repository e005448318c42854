/**
 * The `orders` table and the `payment-proofs` bucket that both order routes
 * share. The hosted database is reduced to what the routes rely on: insertion
 * appends a row (no uniqueness on the order number), an update by
 * `order_number` rewrites the `status` column of every matching row, and
 * `.select().eq(...).single()` finds a row only when exactly one matches.
 */
module Orders {
  import opened Wrappers
  import opened Text

  /** The three values the `status` column takes. */
  datatype Status = Pending | Confirmed | Rejected

  /** The text stored in the `status` column. */
  function StatusName(s: Status): string {
    match s
    case Pending => "pending"
    case Confirmed => "confirmed"
    case Rejected => "rejected"
  }

  /** The status as shown in the operator messages: the column text with its first letter upper-cased. */
  function StatusLabel(s: Status): string {
    Capitalize(StatusName(s))
  }

  lemma StatusLabels()
    ensures StatusLabel(Pending) == "Pending"
    ensures StatusLabel(Confirmed) == "Confirmed"
    ensures StatusLabel(Rejected) == "Rejected"
  {
  }

  /** One row of the `orders` table. */
  datatype OrderRow = OrderRow(
    orderNumber: string,
    firstName: string,
    lastName: string,
    email: string,
    phone: string,
    address: string,
    city: string,
    state: string,
    zipCode: string,
    amount: int,
    paymentProofUrl: string,
    status: Status,
    createdAt: string)

  /** `b` equals `a` in every column except possibly `status`. */
  predicate SameExceptStatus(a: OrderRow, b: OrderRow) {
    b == a.(status := b.status)
  }

  /**
   * The table after `update({ status: s }).eq("order_number", n)`: rows whose
   * order number is `n` get status `s`; nothing else changes.
   */
  function WithStatus(rows: seq<OrderRow>, n: string, s: Status): (r: seq<OrderRow>)
    ensures |r| == |rows|
    ensures forall i :: 0 <= i < |rows| ==> SameExceptStatus(rows[i], r[i])
    ensures forall i :: 0 <= i < |rows| ==>
      r[i].status == (if rows[i].orderNumber == n then s else rows[i].status)
    decreases |rows|
  {
    if |rows| == 0 then []
    else
      var head := if rows[0].orderNumber == n then rows[0].(status := s) else rows[0];
      var tail := WithStatus(rows[1..], n, s);
      assert forall i :: 1 <= i < |rows| ==> rows[i] == rows[1..][i - 1] && ([head] + tail)[i] == tail[i - 1];
      [head] + tail
  }

  /** The matching rows, in table order. */
  function Matching(rows: seq<OrderRow>, n: string): (m: seq<OrderRow>)
    ensures forall i :: 0 <= i < |m| ==> m[i] in rows && m[i].orderNumber == n
    ensures (exists i :: 0 <= i < |rows| && rows[i].orderNumber == n) <==> |m| > 0
    decreases |rows|
  {
    if |rows| == 0 then []
    else (if rows[0].orderNumber == n then [rows[0]] else []) + Matching(rows[1..], n)
  }

  /** No row numbered `n` is left out of the filter. */
  lemma {:induction false} MatchingComplete(rows: seq<OrderRow>, n: string, i: int)
    requires 0 <= i < |rows| && rows[i].orderNumber == n
    ensures rows[i] in Matching(rows, n)
    decreases |rows|
  {
    if i > 0 {
      assert rows[1..][i - 1] == rows[i];
      MatchingComplete(rows[1..], n, i - 1);
    }
  }

  /** Row `i` is the one and only row numbered `n`. */
  predicate OnlyMatch(rows: seq<OrderRow>, n: string, i: int) {
    && 0 <= i < |rows| && rows[i].orderNumber == n
    && forall j :: 0 <= j < |rows| && rows[j].orderNumber == n ==> j == i
  }

  /** With a single row numbered `n`, the filter yields exactly that row. */
  lemma {:induction false} MatchingOnly(rows: seq<OrderRow>, n: string, i: int)
    requires OnlyMatch(rows, n, i)
    ensures Matching(rows, n) == [rows[i]]
    decreases |rows|
  {
    var rest := rows[1..];
    if i == 0 {
      forall j | 0 <= j < |rest| ensures rest[j].orderNumber != n {
        assert rest[j] == rows[j + 1];
      }
      assert Matching(rest, n) == [];
    } else {
      assert rows[0].orderNumber != n;
      forall j | 0 <= j < |rest| && rest[j].orderNumber == n ensures j == i - 1 {
        assert rest[j] == rows[j + 1];
      }
      assert rest[i - 1] == rows[i];
      MatchingOnly(rest, n, i - 1);
    }
  }

  /** Two distinct rows numbered `n` both reach the filter. */
  lemma {:induction false} MatchingTwo(rows: seq<OrderRow>, n: string, i: int, j: int)
    requires 0 <= i < j < |rows| && rows[i].orderNumber == n && rows[j].orderNumber == n
    ensures |Matching(rows, n)| >= 2
    decreases |rows|
  {
    var rest := rows[1..];
    assert rest[j - 1] == rows[j];
    if i == 0 {
      assert |Matching(rest, n)| > 0;
    } else {
      assert rest[i - 1] == rows[i];
      MatchingTwo(rest, n, i - 1, j - 1);
    }
  }

  /**
   * `.eq("order_number", n).single()`: the row when exactly one matches; nothing
   * when none or several do.
   */
  function SelectSingle(rows: seq<OrderRow>, n: string): (r: Option<OrderRow>)
    ensures r.Some? ==> r.value in rows && r.value.orderNumber == n
    ensures forall i :: OnlyMatch(rows, n, i) ==> r == Some(rows[i])
    ensures forall i, j :: 0 <= i < j < |rows| && rows[i].orderNumber == n && rows[j].orderNumber == n ==> r.None?
    ensures (forall i :: 0 <= i < |rows| ==> rows[i].orderNumber != n) ==> r.None?
  {
    var m := Matching(rows, n);
    assert forall i :: OnlyMatch(rows, n, i) ==> m == [rows[i]] by {
      forall i | OnlyMatch(rows, n, i) ensures m == [rows[i]] {
        MatchingOnly(rows, n, i);
      }
    }
    assert forall i, j :: 0 <= i < j < |rows| && rows[i].orderNumber == n && rows[j].orderNumber == n ==> |m| >= 2 by {
      forall i, j | 0 <= i < j < |rows| && rows[i].orderNumber == n && rows[j].orderNumber == n
        ensures |m| >= 2
      {
        MatchingTwo(rows, n, i, j);
      }
    }
    if |m| == 1 then Some(m[0]) else None
  }

  /** Re-applying the same status update changes nothing more: a replay equals one application. */
  lemma {:induction false} WithStatusIdempotent(rows: seq<OrderRow>, n: string, s: Status)
    ensures WithStatus(WithStatus(rows, n, s), n, s) == WithStatus(rows, n, s)
  {
    var once := WithStatus(rows, n, s);
    var twice := WithStatus(once, n, s);
    forall i | 0 <= i < |rows| ensures twice[i] == once[i] {
      assert SameExceptStatus(rows[i], once[i]);
      assert SameExceptStatus(once[i], twice[i]);
    }
  }

  /** Two updates of the same order: the later one wins outright, whatever the earlier status was. */
  lemma {:induction false} WithStatusLastWins(rows: seq<OrderRow>, n: string, s1: Status, s2: Status)
    ensures WithStatus(WithStatus(rows, n, s1), n, s2) == WithStatus(rows, n, s2)
  {
    var first := WithStatus(rows, n, s1);
    var second := WithStatus(first, n, s2);
    var direct := WithStatus(rows, n, s2);
    forall i | 0 <= i < |rows| ensures second[i] == direct[i] {
      assert SameExceptStatus(rows[i], first[i]);
      assert SameExceptStatus(first[i], second[i]);
      assert SameExceptStatus(rows[i], direct[i]);
    }
  }

  /** The public URLs of the stored objects, in upload order. */
  function Urls(objects: seq<string>, urlOf: string -> string): (urls: seq<string>)
    ensures |urls| == |objects|
    ensures forall j :: 0 <= j < |objects| ==> urls[j] == urlOf(objects[j])
    decreases |objects|
  {
    if |objects| == 0 then []
    else Urls(objects[..|objects| - 1], urlOf) + [urlOf(objects[|objects| - 1])]
  }

  /** Every row's proof URL is the public URL of one of the stored objects. */
  ghost predicate ProofsStoredIn(rows: seq<OrderRow>, objects: seq<string>, urlOf: string -> string) {
    forall i :: 0 <= i < |rows| ==> rows[i].paymentProofUrl in Urls(objects, urlOf)
  }

  /** Uploading one more object adds its URL and keeps the others. */
  lemma UrlsAfterUpload(objects: seq<string>, urlOf: string -> string, key: string)
    ensures Urls(objects + [key], urlOf) == Urls(objects, urlOf) + [urlOf(key)]
  {
    assert (objects + [key])[..|objects|] == objects;
  }

  /** Uploading a proof and inserting a row that links to it keeps every proof link backed by an object. */
  lemma ProofsStoredAfterSubmit(rows: seq<OrderRow>, objects: seq<string>, urlOf: string -> string,
                                key: string, row: OrderRow)
    requires ProofsStoredIn(rows, objects, urlOf)
    requires row.paymentProofUrl == urlOf(key)
    ensures ProofsStoredIn(rows, objects + [key], urlOf)
    ensures ProofsStoredIn(rows + [row], objects + [key], urlOf)
  {
    UrlsAfterUpload(objects, urlOf, key);
    var urls := Urls(objects + [key], urlOf);
    var rows' := rows + [row];
    forall i | 0 <= i < |rows'| ensures rows'[i].paymentProofUrl in urls {
      if i < |rows| {
        assert rows'[i] == rows[i];
      } else {
        assert urls[|objects|] == urlOf(key);
      }
    }
  }

  /** A status update never touches a proof link. */
  lemma ProofsStoredAfterUpdate(rows: seq<OrderRow>, objects: seq<string>, urlOf: string -> string,
                                n: string, s: Status)
    requires ProofsStoredIn(rows, objects, urlOf)
    ensures ProofsStoredIn(WithStatus(rows, n, s), objects, urlOf)
  {
    var rows' := WithStatus(rows, n, s);
    forall i | 0 <= i < |rows'| ensures rows'[i].paymentProofUrl in Urls(objects, urlOf) {
      assert SameExceptStatus(rows[i], rows'[i]);
    }
  }

  /** The `orders` table and the keys of the objects in the `payment-proofs` bucket. */
  class OrderDatabase {
    var orders: seq<OrderRow>
    var proofObjects: seq<string>

    constructor ()
      ensures orders == [] && proofObjects == []
    {
      orders := [];
      proofObjects := [];
    }

    /** Every row's `payment_proof_url` is the public URL of an object in the bucket. */
    ghost predicate ProofsStored(urlOf: string -> string)
      reads this
    {
      ProofsStoredIn(orders, proofObjects, urlOf)
    }

    /** `storage.from("payment-proofs").upload(key, file)` that succeeded. */
    method Upload(key: string)
      modifies this`proofObjects
      ensures proofObjects == old(proofObjects) + [key]
    {
      proofObjects := proofObjects + [key];
    }

    /** `from("orders").insert([row])` that succeeded. */
    method Insert(row: OrderRow)
      modifies this`orders
      ensures orders == old(orders) + [row]
    {
      orders := orders + [row];
    }

    /** `from("orders").update({ status: s }).eq("order_number", n)` that succeeded. */
    method UpdateStatus(n: string, s: Status)
      modifies this`orders
      ensures orders == WithStatus(old(orders), n, s)
    {
      orders := WithStatus(orders, n, s);
    }
  }
}
