/** The records of the app: categories, receipts, the optional submitter
    details and sessions. Every field that the app keeps as a string stays a
    string; `timestamp` and `createdAt` are millisecond clock readings. */
module ReceiptTypes {
  import opened Results

  datatype Category = Category(id: string, name: string, glCode: string)

  datatype Receipt = Receipt(
    id: string,
    imageUri: string,
    date: string,
    description: string,
    purpose: string,
    category: string,
    glCode: string,
    cost: string,
    timestamp: int)

  /** The three offices a submitter can belong to. */
  datatype Location = GR | OK | MA

  /** The text a location is written as (`'GR' | 'OK' | 'MA'`). */
  function LocationCode(l: Location): (code: string)
    ensures |code| == 2
    ensures code == "GR" || code == "OK" || code == "MA"
  {
    match l
    case GR => "GR"
    case OK => "OK"
    case MA => "MA"
  }

  datatype SessionUserInfo = SessionUserInfo(
    firstName: string,
    lastName: string,
    location: Location,
    sessionId: string)

  /** A session is either open for capture or already submitted. */
  datatype Status = Active | Submitted

  datatype Session = Session(
    id: string,
    receipts: seq<Receipt>,
    createdAt: int,
    status: Status,
    userInfo: Option<SessionUserInfo>)

  /** `Partial<Receipt>`: a field that is `None` is absent from the update. */
  datatype ReceiptPatch = ReceiptPatch(
    id: Option<string>,
    imageUri: Option<string>,
    date: Option<string>,
    description: Option<string>,
    purpose: Option<string>,
    category: Option<string>,
    glCode: Option<string>,
    cost: Option<string>,
    timestamp: Option<int>)

  /** The update that carries every field of `r`, as the receipt form sends it. */
  function FullPatch(r: Receipt): ReceiptPatch {
    ReceiptPatch(Some(r.id), Some(r.imageUri), Some(r.date), Some(r.description),
                 Some(r.purpose), Some(r.category), Some(r.glCode), Some(r.cost),
                 Some(r.timestamp))
  }

  /** The update with no field present. */
  const EmptyPatch := ReceiptPatch(None, None, None, None, None, None, None, None, None)

  /** `{ ...r, ...updates }`: every present field of the update wins, every
      other field keeps the receipt's value. */
  function Merge(r: Receipt, p: ReceiptPatch): (m: Receipt)
    ensures p.id.None? ==> m.id == r.id
    ensures p.imageUri.None? ==> m.imageUri == r.imageUri
    ensures p.date.None? ==> m.date == r.date
    ensures p.description.None? ==> m.description == r.description
    ensures p.purpose.None? ==> m.purpose == r.purpose
    ensures p.category.None? ==> m.category == r.category
    ensures p.glCode.None? ==> m.glCode == r.glCode
    ensures p.cost.None? ==> m.cost == r.cost
    ensures p.timestamp.None? ==> m.timestamp == r.timestamp
    ensures p.id.Some? ==> m.id == p.id.value
    ensures p.imageUri.Some? ==> m.imageUri == p.imageUri.value
    ensures p.date.Some? ==> m.date == p.date.value
    ensures p.description.Some? ==> m.description == p.description.value
    ensures p.purpose.Some? ==> m.purpose == p.purpose.value
    ensures p.category.Some? ==> m.category == p.category.value
    ensures p.glCode.Some? ==> m.glCode == p.glCode.value
    ensures p.cost.Some? ==> m.cost == p.cost.value
    ensures p.timestamp.Some? ==> m.timestamp == p.timestamp.value
  {
    Receipt(p.id.GetOr(r.id), p.imageUri.GetOr(r.imageUri), p.date.GetOr(r.date),
            p.description.GetOr(r.description), p.purpose.GetOr(r.purpose),
            p.category.GetOr(r.category), p.glCode.GetOr(r.glCode),
            p.cost.GetOr(r.cost), p.timestamp.GetOr(r.timestamp))
  }

  /** Merging nothing leaves the receipt as it was; merging a full update
      replaces it; merging twice is merging once. */
  lemma MergeLaws(r: Receipt, x: Receipt, p: ReceiptPatch)
    ensures Merge(r, EmptyPatch) == r
    ensures Merge(r, FullPatch(x)) == x
    ensures Merge(Merge(r, p), p) == Merge(r, p)
  {
  }

  /** A merge that only supplies `cost` changes the cost and nothing else. */
  lemma MergeCostOnly(r: Receipt, cost: string)
    ensures Merge(r, EmptyPatch.(cost := Some(cost))) == r.(cost := cost)
  {
  }

  /** A calendar date as the device clock reports it, month counted from 1;
      the screens read the clock and pass the date in. */
  datatype CalendarDate = CalendarDate(year: nat, month: nat, day: nat)
}
