/** The two request handlers (app.py:120-144) and the in-memory `receipts`
    dictionary they share (app.py:8), reduced to what they compute: the HTTP
    layer becomes the outcome datatypes below, and the id that `uuid.uuid4()`
    would generate is supplied by the caller. */
module Store {
  import opened Wrappers
  import opened Chars
  import opened Receipts
  import opened Validator
  import opened Points

  /** What `request.get_json()` hands the handler: nothing usable (`None`),
      or a JSON object. */
  datatype Body = Unparsed | Json(doc: Receipt)

  /** `not data` (app.py:123): `None` and the empty object are falsy. */
  predicate Falsy(body: Body) {
    body.Unparsed? || IsEmptyObject(body.doc)
  }

  /** The responses of `POST /receipts/process`. */
  datatype SubmitOutcome =
    | InvalidJson
    | Rejected(errors: seq<string>)
    | Accepted(id: string)

  /** The responses of `GET /receipts/<id>/points`. */
  datatype RetrieveOutcome = NotFound | Found(points: nat)

  const InvalidJsonText: string := "Invalid JSON"
  const RejectedText: string := "The receipt is invalid. Please verify input."
  const NotFoundText: string := "No receipt found for that id"

  /** The HTTP status each response is sent with (app.py:124, 130, 137, 143-144). */
  function SubmitStatus(o: SubmitOutcome): nat {
    match o
    case InvalidJson => 400
    case Rejected(_) => 400
    case Accepted(_) => 200
  }

  function RetrieveStatus(o: RetrieveOutcome): nat {
    match o
    case NotFound => 404
    case Found(_) => 200
  }

  /** The `"message"` of an error response, and nothing for a success. */
  function SubmitMessage(o: SubmitOutcome): string {
    match o
    case InvalidJson => InvalidJsonText
    case Rejected(_) => RejectedText
    case Accepted(_) => []
  }

  function RetrieveMessage(o: RetrieveOutcome): string {
    if o.NotFound? then NotFoundText else []
  }

  /** `process_receipt` on a store: the response, and the store afterwards. */
  datatype Submission = Submission(outcome: SubmitOutcome, receipts: map<string, nat>)

  /** What `process_receipt` does (app.py:122-137): a falsy body is refused
      before validation; a receipt with errors is refused with them; a valid
      one is scored and stored under the fresh id. */
  function Submit(receipts: map<string, nat>, body: Body, cls: CharClasses, freshId: string): (s: Submission)
    requires AsciiAgrees(cls)
    ensures s.outcome.InvalidJson? <==> Falsy(body)
    ensures s.outcome.Accepted? <==> !Falsy(body) && IsValidReceipt(body.doc, cls)
    ensures s.outcome.Accepted? ==> s.outcome.id == freshId && s.receipts == receipts[freshId := Score(body.doc, cls)]
    ensures !s.outcome.Accepted? ==> s.receipts == receipts
    ensures s.outcome.Rejected? ==> body.Json? && s.outcome.errors != [] && s.outcome.errors == Messages(Violations(body.doc, cls))
  {
    if Falsy(body) then Submission(InvalidJson, receipts)
    else
      var errors := Messages(Violations(body.doc, cls));
      ValidIffNoViolations(body.doc, cls);
      if errors != [] then Submission(Rejected(errors), receipts)
      else Submission(Accepted(freshId), receipts[freshId := Score(body.doc, cls)])
  }

  /** What `get_points` does (app.py:141-144). */
  function Lookup(receipts: map<string, nat>, id: string): (o: RetrieveOutcome)
    ensures o.Found? <==> id in receipts
    ensures o.Found? ==> o.points == receipts[id]
  {
    if id in receipts then Found(receipts[id]) else NotFound
  }

  /** A stored receipt is found under the id it was given, with its score, and
      every other id answers as before. */
  lemma SubmitThenLookup(receipts: map<string, nat>, body: Body, cls: CharClasses, freshId: string, other: string)
    requires AsciiAgrees(cls)
    requires freshId !in receipts
    ensures var s := Submit(receipts, body, cls, freshId);
      s.outcome.Accepted? ==> Lookup(s.receipts, freshId) == Found(Score(body.doc, cls))
    ensures var s := Submit(receipts, body, cls, freshId);
      other != freshId ==> Lookup(s.receipts, other) == Lookup(receipts, other)
    ensures Lookup(Submit(receipts, body, cls, freshId).receipts, freshId).Found? <==> !Falsy(body) && IsValidReceipt(body.doc, cls)
  {
  }

  /** Each accepted receipt adds exactly one entry; a refused one adds none. */
  lemma SubmitGrowsByOne(receipts: map<string, nat>, body: Body, cls: CharClasses, freshId: string)
    requires AsciiAgrees(cls)
    requires freshId !in receipts
    ensures var s := Submit(receipts, body, cls, freshId);
      && |s.receipts| == |receipts| + (if s.outcome.Accepted? then 1 else 0)
      && s.receipts.Keys >= receipts.Keys
  {
    var s := Submit(receipts, body, cls, freshId);
    if s.outcome.Accepted? {
      StoreFresh(receipts, freshId, s.receipts[freshId]);
    }
  }

  /** Storing under an id not yet used adds one entry and keeps the others. */
  lemma StoreFresh(receipts: map<string, nat>, id: string, points: nat)
    requires id !in receipts
    ensures |receipts[id := points]| == |receipts| + 1
    ensures receipts[id := points].Keys == receipts.Keys + {id}
  {
    assert receipts[id := points].Keys == receipts.Keys + {id};
  }

  /** The falsy bodies get "Invalid JSON", never the five missing-field errors
      that validating `{}` would give. */
  lemma FalsyRefusedBeforeValidation(receipts: map<string, nat>, cls: CharClasses, freshId: string)
    requires AsciiAgrees(cls)
    ensures Submit(receipts, Unparsed, cls, freshId).outcome == InvalidJson
    ensures Submit(receipts, Json(Receipt(None, None, None, None, None, false)), cls, freshId).outcome == InvalidJson
    ensures |Violations(Receipt(None, None, None, None, None, false), cls)| == 5
  {
    PresenceInFieldOrder(Receipt(None, None, None, None, None, false));
  }

  /** An object holding only other keys is not falsy: it is validated and
      refused with the five missing-field errors. */
  lemma OtherKeysValidated(receipts: map<string, nat>, cls: CharClasses, freshId: string)
    requires AsciiAgrees(cls)
    ensures var doc := Receipt(None, None, None, None, None, true);
      Submit(receipts, Json(doc), cls, freshId).outcome == Rejected(Messages(Violations(doc, cls)))
    ensures |Violations(Receipt(None, None, None, None, None, true), cls)| == 5
  {
    PresenceInFieldOrder(Receipt(None, None, None, None, None, true));
  }

  /** The `receipts` dictionary with the two handlers that use it. */
  class ReceiptStore {
    var receipts: map<string, nat>

    constructor()
      ensures receipts == map[]
    {
      receipts := map[];
    }

    /** `process_receipt`, with the id `uuid.uuid4()` would draw passed in. */
    method ProcessReceipt(body: Body, cls: CharClasses, freshId: string) returns (outcome: SubmitOutcome)
      requires AsciiAgrees(cls)
      requires freshId !in receipts
      modifies this
      ensures Submission(outcome, receipts) == Submit(old(receipts), body, cls, freshId)
    {
      if Falsy(body) {
        return InvalidJson;
      }
      var doc := body.doc;
      var errors := ValidateReceipt(doc, cls);
      if errors != [] {
        return Rejected(errors);
      }
      ValidIffNoViolations(doc, cls);
      var points := CalculatePoints(doc, cls);
      receipts := receipts[freshId := points];
      return Accepted(freshId);
    }

    /** `get_points`. */
    method GetPoints(id: string) returns (outcome: RetrieveOutcome)
      ensures outcome == Lookup(receipts, id)
    {
      if id in receipts {
        outcome := Found(receipts[id]);
      } else {
        outcome := NotFound;
      }
    }
  }

  /** A client of the store: a receipt submitted and then asked for by the id
      it got back is found with its score. */
  method SubmitAndRetrieve(store: ReceiptStore, body: Body, cls: CharClasses, freshId: string)
    returns (submitted: SubmitOutcome, retrieved: RetrieveOutcome)
    requires AsciiAgrees(cls)
    requires freshId !in store.receipts
    modifies store
    ensures submitted.Accepted? <==> !Falsy(body) && IsValidReceipt(body.doc, cls)
    ensures submitted.Accepted? ==> retrieved == Found(Score(body.doc, cls))
    ensures !submitted.Accepted? ==> retrieved == NotFound
    ensures Submission(submitted, store.receipts) == Submit(old(store.receipts), body, cls, freshId)
  {
    submitted := store.ProcessReceipt(body, cls, freshId);
    retrieved := store.GetPoints(freshId);
  }

}
