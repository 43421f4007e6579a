/** The `verifyingData` collection (src/lib/schemas/verifying.ts): one stored
    document per user being verified, the schema that guards what may be
    saved, and the `findOne`/`save`/`deleteOne` operations the handler uses
    on it. The collection is a sequence; `findOne` takes the first match.
    MongoDB's natural order need not be insertion order, but under the
    handler's invariants every filter it uses matches at most one document,
    so the order chosen here does not change what is found. */
module Verifying {
  import opened Wrappers

  /** A stored document: the `Verifying` interface. */
  datatype Verifying = Verifying(
    userId: string,
    mainRoomId: string,
    verificationRoomId: Option<string>,
    captchaAnswer: Option<string>)

  /** A document as handed to the schema, before validation: any path may be
      missing. */
  datatype Document = Document(
    userId: Option<string>,
    mainRoomId: Option<string>,
    verificationRoomId: Option<string>,
    captchaAnswer: Option<string>)

  datatype SchemaError =
    | MissingUserId
    | MissingMainRoomId
    | DuplicateVerificationRoom  // the unique index on `verificationRoomId`

  /** Mongoose's `required` check for a String path: the value is there and
      is not the empty string. */
  predicate Required(v: Option<string>) {
    v.Some? && v.value != ""
  }

  /** A stored document passes the schema's `required` checks. */
  predicate SchemaValid(d: Verifying) {
    Required(Some(d.userId)) && Required(Some(d.mainRoomId))
  }

  function ToDocument(d: Verifying): Document {
    Document(Some(d.userId), Some(d.mainRoomId), d.verificationRoomId, d.captchaAnswer)
  }

  /** Validation of a document against the schema: `userId` and
      `mainRoomId` are required, the other two paths are optional and
      unconstrained. */
  function Validate(doc: Document): (r: Result<Verifying, SchemaError>)
    ensures r.Success? <==> Required(doc.userId) && Required(doc.mainRoomId)
    ensures !Required(doc.userId) ==> r == Failure(MissingUserId)
    ensures r.Success? ==> SchemaValid(r.value) && ToDocument(r.value) == doc
  {
    if !Required(doc.userId) then Failure(MissingUserId)
    else if !Required(doc.mainRoomId) then Failure(MissingMainRoomId)
    else Success(Verifying(doc.userId.value, doc.mainRoomId.value, doc.verificationRoomId, doc.captchaAnswer))
  }

  /** A stored document validates back to itself. */
  lemma ValidateStored(d: Verifying)
    requires SchemaValid(d)
    ensures Validate(ToDocument(d)) == Success(d)
  {
  }

  /** Every document in the collection passes the schema. */
  predicate AllSchemaValid(recs: seq<Verifying>) {
    forall i :: 0 <= i < |recs| ==> SchemaValid(recs[i])
  }

  /** The unique index: no two documents carry the same `verificationRoomId`.
      Documents without one are not constrained. */
  predicate UniqueVerificationRooms(recs: seq<Verifying>) {
    forall i, j ::
      0 <= i < |recs| && 0 <= j < |recs| && i != j && recs[i].verificationRoomId.Some? ==>
        recs[i].verificationRoomId != recs[j].verificationRoomId
  }

  /** Some document other than the one at `except` already uses `room`. */
  predicate RoomTaken(recs: seq<Verifying>, room: string, except: Option<nat>) {
    exists j :: 0 <= j < |recs| && Some(j) != except && recs[j].verificationRoomId == Some(room)
  }

  /** `doc.save()`: validate, check the unique index, then overwrite the
      document at `at` (an update) or append it (a new document). A failure
      leaves the collection as it was. */
  function Save(recs: seq<Verifying>, at: Option<nat>, d: Verifying): (r: Result<seq<Verifying>, SchemaError>)
    requires at.Some? ==> at.value < |recs|
    ensures r.Success? <==>
      SchemaValid(d) && !(d.verificationRoomId.Some? && RoomTaken(recs, d.verificationRoomId.value, at))
    ensures r.Success? && at.Some? ==> r.value == recs[at.value := d]
    ensures r.Success? && at.None? ==> r.value == recs + [d]
    ensures r.Success? && AllSchemaValid(recs) ==> AllSchemaValid(r.value)
    ensures r.Success? && UniqueVerificationRooms(recs) ==> UniqueVerificationRooms(r.value)
  {
    match Validate(ToDocument(d))
    case Failure(e) => Failure(e)
    case Success(_) =>
      if d.verificationRoomId.Some? && RoomTaken(recs, d.verificationRoomId.value, at) then
        Failure(DuplicateVerificationRoom)
      else if at.Some? then Success(recs[at.value := d])
      else Success(recs + [d])
  }

  /** `doc.deleteOne()`: the document at `i` is removed, the others keep
      their order. */
  function DeleteOne(recs: seq<Verifying>, i: nat): (r: seq<Verifying>)
    requires i < |recs|
    ensures |r| == |recs| - 1
    ensures forall j :: 0 <= j < |r| ==> r[j] == if j < i then recs[j] else recs[j + 1]
    ensures AllSchemaValid(recs) ==> AllSchemaValid(r)
    ensures UniqueVerificationRooms(recs) ==> UniqueVerificationRooms(r)
  {
    recs[..i] + recs[i + 1..]
  }

  /** The filters the handler passes to `findOne`. */
  datatype Filter =
    | ByVerificationRoom(room: string)
    | ByUserAndMainRoom(user: string, room: string)
    | ByUserAndVerificationRoom(user: string, room: string)

  predicate Matches(f: Filter, d: Verifying) {
    match f
    case ByVerificationRoom(room) => d.verificationRoomId == Some(room)
    case ByUserAndMainRoom(user, room) => d.userId == user && d.mainRoomId == room
    case ByUserAndVerificationRoom(user, room) => d.userId == user && d.verificationRoomId == Some(room)
  }

  /** `findOne(filter)`: the position of the first matching document, or
      none when no document matches. */
  function FindOne(recs: seq<Verifying>, f: Filter): (r: Option<nat>)
    ensures r.Some? ==> r.value < |recs| && Matches(f, recs[r.value])
    ensures r.Some? ==> forall j :: 0 <= j < r.value ==> !Matches(f, recs[j])
    ensures r.None? <==> forall j :: 0 <= j < |recs| ==> !Matches(f, recs[j])
  {
    FindFrom(recs, f, 0)
  }

  function FindFrom(recs: seq<Verifying>, f: Filter, k: nat): (r: Option<nat>)
    requires k <= |recs|
    requires forall j :: 0 <= j < k ==> !Matches(f, recs[j])
    ensures r.Some? ==> k <= r.value < |recs| && Matches(f, recs[r.value])
    ensures r.Some? ==> forall j :: 0 <= j < r.value ==> !Matches(f, recs[j])
    ensures r.None? <==> forall j :: 0 <= j < |recs| ==> !Matches(f, recs[j])
    decreases |recs| - k
  {
    if k == |recs| then None
    else if Matches(f, recs[k]) then Some(k)
    else FindFrom(recs, f, k + 1)
  }

  /** Under the unique index a lookup by verification room finds the one
      document that has it, whichever order the collection is in. */
  lemma {:induction false} FindByVerificationRoomIsUnique(recs: seq<Verifying>, f: Filter, i: nat)
    requires UniqueVerificationRooms(recs)
    requires f.ByVerificationRoom? || f.ByUserAndVerificationRoom?
    requires i < |recs| && Matches(f, recs[i])
    ensures FindOne(recs, f) == Some(i)
  {
  }
}
