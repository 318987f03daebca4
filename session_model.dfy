/** The session store's state transitions as pure functions. Each store
    operation is one step from a `Snapshot` (current session and the session
    list) to the next, together with the list it hands to storage, if any.
    The list transforms (`map` replacing by id, `filter` by id, append) live
    here too. */
module SessionModel {
  import opened Results
  import opened ReceiptTypes
  import Seqs

  /** `saveSessions` refuses lists longer than this. */
  const MaxSessions := 1000

  datatype Snapshot = Snapshot(current: Option<Session>, sessions: seq<Session>)

  /** The state an operation leaves behind, and the sanitized list it passed
      to `setItem` (`None` when nothing was written). */
  datatype Step = Step(after: Snapshot, written: Option<seq<Session>>)

  /** Every entry has a non-empty id, so sanitizing drops nothing. */
  predicate Clean(xs: seq<Session>) {
    forall i :: 0 <= i < |xs| ==> xs[i].id != ""
  }

  /** The current session, when there is one, is open for capture. */
  predicate CurrentActive(st: Snapshot) {
    st.current.Some? ==> st.current.value.status == Active
  }

  // ---------------------------------------------------------------------
  // List transforms

  predicate HasId(s: Session) {
    s.id != ""
  }

  /** `xs.filter(s => s && s.id)`: drops the sessions whose id is empty. */
  function Sanitize(xs: seq<Session>): (r: seq<Session>)
    ensures |r| <= |xs| && Clean(r)
    ensures forall s :: s in r <==> s in xs && s.id != ""
  {
    Seqs.Filter(xs, HasId)
  }

  /** A list whose ids are all present comes through sanitizing unchanged. */
  lemma SanitizeClean(xs: seq<Session>)
    requires Clean(xs)
    ensures Sanitize(xs) == xs
  {
    Seqs.FilterAll(xs, HasId);
  }

  /** Sanitizing works piecewise over concatenation, so the kept sessions
      stay in their original order and keep their multiplicity. */
  lemma SanitizeInOrder(a: seq<Session>, b: seq<Session>)
    ensures Sanitize(a + b) == Sanitize(a) + Sanitize(b)
  {
    Seqs.FilterAppend(a, b, HasId);
  }

  /** A single session is kept exactly when it has an id. */
  lemma SanitizeOne(s: Session)
    ensures Sanitize([s]) == if s.id != "" then [s] else []
  {
    assert [s][1..] == [];
  }

  /** `xs.map(s => s.id === id ? s2 : s)`. */
  function ReplaceById(xs: seq<Session>, id: string, s2: Session): (r: seq<Session>)
    ensures |r| == |xs|
    ensures forall i :: 0 <= i < |xs| && xs[i].id == id ==> r[i] == s2
    ensures forall i :: 0 <= i < |xs| && xs[i].id != id ==> r[i] == xs[i]
  {
    seq(|xs|, i requires 0 <= i < |xs| => if xs[i].id == id then s2 else xs[i])
  }

  /** Replacing by an entry that carries the same id keeps a clean list clean. */
  lemma ReplaceKeepsClean(xs: seq<Session>, s2: Session)
    requires Clean(xs)
    ensures Clean(ReplaceById(xs, s2.id, s2))
  {
  }

  predicate IsActive(s: Session) {
    s.status == Active
  }

  /** `xs.find(s => s.status === 'active')`. */
  function FirstActive(xs: seq<Session>): (r: Option<Session>)
    ensures r.Some? ==> r.value.status == Active
    ensures r.None? <==> forall i :: 0 <= i < |xs| ==> xs[i].status != Active
    ensures r.Some? ==>
              exists i :: 0 <= i < |xs| && xs[i] == r.value && forall j :: 0 <= j < i ==> xs[j].status != Active
  {
    Seqs.Find(xs, IsActive)
  }

  /** `receipts.map(r => r.id === id ? { ...r, ...updates } : r)`. */
  function UpdateReceipts(rs: seq<Receipt>, id: string, p: ReceiptPatch): (r: seq<Receipt>)
    ensures |r| == |rs|
    ensures forall i :: 0 <= i < |rs| && rs[i].id == id ==> r[i] == Merge(rs[i], p)
    ensures forall i :: 0 <= i < |rs| && rs[i].id != id ==> r[i] == rs[i]
  {
    seq(|rs|, i requires 0 <= i < |rs| => if rs[i].id == id then Merge(rs[i], p) else rs[i])
  }

  /** An id no receipt carries leaves the list identical. */
  lemma UpdateUnknownId(rs: seq<Receipt>, id: string, p: ReceiptPatch)
    requires forall i :: 0 <= i < |rs| ==> rs[i].id != id
    ensures UpdateReceipts(rs, id, p) == rs
  {
  }

  /** `receipts.filter(r => r.id !== id)`. */
  function RemoveReceipts(rs: seq<Receipt>, id: string): (r: seq<Receipt>)
    ensures |r| <= |rs|
    ensures forall x :: x in r <==> x in rs && x.id != id
  {
    Seqs.Filter(rs, (x: Receipt) => x.id != id)
  }

  /** The kept receipts stay in their original order: removing from a
      concatenation removes from each part. */
  lemma RemoveInOrder(a: seq<Receipt>, b: seq<Receipt>, id: string)
    ensures RemoveReceipts(a + b, id) == RemoveReceipts(a, id) + RemoveReceipts(b, id)
  {
    Seqs.FilterAppend(a, b, (x: Receipt) => x.id != id);
  }

  /** Removing an id that is absent changes nothing; removing twice is
      removing once. */
  lemma RemoveAbsent(rs: seq<Receipt>, id: string)
    requires forall i :: 0 <= i < |rs| ==> rs[i].id != id
    ensures RemoveReceipts(rs, id) == rs
  {
    Seqs.FilterAll(rs, (x: Receipt) => x.id != id);
  }

  lemma RemoveIdempotent(rs: seq<Receipt>, id: string)
    ensures RemoveReceipts(RemoveReceipts(rs, id), id) == RemoveReceipts(rs, id)
  {
    Seqs.FilterIdempotent(rs, (x: Receipt) => x.id != id);
  }

  // ---------------------------------------------------------------------
  // Steps

  /** `saveSessions(updated)`: over the cap nothing happens; otherwise the
      sanitized list is written and becomes the in-memory list, whether or
      not storage accepted the write. */
  function Save(st: Snapshot, updated: seq<Session>): (r: Step)
    ensures r.after.current == st.current
    ensures r.written.Some? <==> |updated| <= MaxSessions
    ensures r.written.None? ==> r.after == st
    ensures r.written.Some? ==> r.written.value == r.after.sessions && Clean(r.after.sessions)
    ensures r.written.Some? ==> r.after.sessions == Sanitize(updated)
  {
    if |updated| <= MaxSessions then
      var sanitized := Sanitize(updated);
      Step(st.(sessions := sanitized), Some(sanitized))
    else Step(st, None)
  }

  /** The common tail of `addReceipt`, `updateReceipt` and `deleteReceipt`:
      the updated session becomes current and replaces the list entries that
      carry its id. */
  function ReplaceCurrent(st: Snapshot, updated: Session): (r: Step)
    requires st.current.Some? && updated.id == st.current.value.id
    ensures r.after.current == Some(updated)
    ensures r.written.Some? ==> r.written.value == r.after.sessions
  {
    Save(st.(current := Some(updated)), ReplaceById(st.sessions, updated.id, updated))
  }

  /** What `ReplaceCurrent` does to the list: over the cap it is untouched;
      for a clean list every entry with the current id becomes the updated
      session and every other entry stays where and what it was. */
  lemma ReplaceCurrentSessions(st: Snapshot, updated: Session)
    requires st.current.Some? && updated.id == st.current.value.id
    ensures |st.sessions| > MaxSessions ==>
              ReplaceCurrent(st, updated) == Step(st.(current := Some(updated)), None)
    ensures |st.sessions| <= MaxSessions && Clean(st.sessions) ==>
              var after := ReplaceCurrent(st, updated).after.sessions;
              && |after| == |st.sessions|
              && (forall i :: 0 <= i < |after| && st.sessions[i].id == updated.id ==> after[i] == updated)
              && (forall i :: 0 <= i < |after| && st.sessions[i].id != updated.id ==> after[i] == st.sessions[i])
  {
    if |st.sessions| <= MaxSessions && Clean(st.sessions) {
      ReplaceKeepsClean(st.sessions, updated);
      SanitizeClean(ReplaceById(st.sessions, updated.id, updated));
    }
  }

  /** `startNewSession(userInfo)` with the id and creation time it reads from the clock. */
  function StartNewSession(st: Snapshot, userInfo: Option<SessionUserInfo>, id: string, createdAt: int): (r: Step)
    ensures r.after.current == Some(Session(id, [], createdAt, Active, userInfo))
    ensures r.written.Some? ==> r.written.value == r.after.sessions
  {
    var s := Session(id, [], createdAt, Active, userInfo);
    var saved := Save(st, st.sessions + [s]);
    Step(saved.after.(current := Some(s)), saved.written)
  }

  /** The new session is appended after the earlier entries, which are kept
      unchanged; at the cap the list is left alone although the new session
      still becomes current. */
  lemma StartNewSessionAppends(st: Snapshot, userInfo: Option<SessionUserInfo>, id: string, createdAt: int)
    requires id != ""
    ensures var s := Session(id, [], createdAt, Active, userInfo);
            var r := StartNewSession(st, userInfo, id, createdAt);
            && (|st.sessions| < MaxSessions && Clean(st.sessions) ==> r.after.sessions == st.sessions + [s])
            && (|st.sessions| >= MaxSessions ==> r.after.sessions == st.sessions && r.written == None)
  {
    var s := Session(id, [], createdAt, Active, userInfo);
    Seqs.FilterAppend(st.sessions, [s], HasId);
    assert Sanitize([s]) == [s];
    if Clean(st.sessions) {
      SanitizeClean(st.sessions);
    }
  }

  /** Starting a session while another is still active in the list keeps
      that one active too: afterwards two entries are active. */
  lemma StartNewSessionKeepsOldActive(st: Snapshot, userInfo: Option<SessionUserInfo>, id: string, createdAt: int, k: nat)
    requires id != "" && |st.sessions| < MaxSessions && Clean(st.sessions)
    requires k < |st.sessions| && st.sessions[k].status == Active
    ensures var after := StartNewSession(st, userInfo, id, createdAt).after.sessions;
            exists i, j :: 0 <= i < j < |after| && after[i].status == Active && after[j].status == Active
  {
    StartNewSessionAppends(st, userInfo, id, createdAt);
    var after := StartNewSession(st, userInfo, id, createdAt).after.sessions;
    assert after[k] == st.sessions[k];
    assert after[|st.sessions|].status == Active;
  }

  /** `addReceipt(receipt)`. */
  function AddReceipt(st: Snapshot, receipt: Receipt): (r: Step)
    ensures st.current.None? ==> r == Step(st, None)
    ensures st.current.Some? ==>
              var c := st.current.value;
              r.after.current == Some(c.(receipts := c.receipts + [receipt]))
    ensures r.written.Some? ==> r.written.value == r.after.sessions
  {
    match st.current
    case None => Step(st, None)
    case Some(c) => ReplaceCurrent(st, c.(receipts := c.receipts + [receipt]))
  }

  /** Adding grows the current session's receipts by exactly one at the end,
      keeping the earlier receipts in order. */
  lemma AddReceiptGrowsByOne(st: Snapshot, receipt: Receipt)
    requires st.current.Some?
    ensures var before := st.current.value.receipts;
            var after := AddReceipt(st, receipt).after.current.value.receipts;
            |after| == |before| + 1 && after[..|before|] == before && after[|before|] == receipt
  {
  }

  /** `updateReceipt(receiptId, updates)`. */
  function UpdateReceipt(st: Snapshot, receiptId: string, updates: ReceiptPatch): (r: Step)
    ensures st.current.None? ==> r == Step(st, None)
    ensures st.current.Some? ==>
              var c := st.current.value;
              r.after.current == Some(c.(receipts := UpdateReceipts(c.receipts, receiptId, updates)))
    ensures r.written.Some? ==> r.written.value == r.after.sessions
  {
    match st.current
    case None => Step(st, None)
    case Some(c) => ReplaceCurrent(st, c.(receipts := UpdateReceipts(c.receipts, receiptId, updates)))
  }

  /** Every receipt with the id gets the updates merged in, the others are
      untouched; an unknown id leaves the current session as it was. */
  lemma UpdateReceiptMerges(st: Snapshot, receiptId: string, updates: ReceiptPatch)
    requires st.current.Some?
    ensures var before := st.current.value.receipts;
            var after := UpdateReceipt(st, receiptId, updates).after.current.value.receipts;
            && |after| == |before|
            && (forall i :: 0 <= i < |before| && before[i].id == receiptId ==> after[i] == Merge(before[i], updates))
            && (forall i :: 0 <= i < |before| && before[i].id != receiptId ==> after[i] == before[i])
    ensures (forall i :: 0 <= i < |st.current.value.receipts| ==> st.current.value.receipts[i].id != receiptId) ==>
              UpdateReceipt(st, receiptId, updates).after.current == st.current
  {
    var c := st.current.value;
    if forall i :: 0 <= i < |c.receipts| ==> c.receipts[i].id != receiptId {
      UpdateUnknownId(c.receipts, receiptId, updates);
    }
  }

  /** `deleteReceipt(receiptId)`. */
  function DeleteReceipt(st: Snapshot, receiptId: string): (r: Step)
    ensures st.current.None? ==> r == Step(st, None)
    ensures st.current.Some? ==>
              var c := st.current.value;
              r.after.current == Some(c.(receipts := RemoveReceipts(c.receipts, receiptId)))
    ensures r.written.Some? ==> r.written.value == r.after.sessions
  {
    match st.current
    case None => Step(st, None)
    case Some(c) => ReplaceCurrent(st, c.(receipts := RemoveReceipts(c.receipts, receiptId)))
  }

  /** Deleting an id that no receipt has leaves the current session as it
      was, and deleting twice leaves the same state as deleting once (for a
      clean list within the cap). */
  lemma DeleteReceiptIdempotent(st: Snapshot, receiptId: string)
    requires st.current.Some?
    ensures (forall i :: 0 <= i < |st.current.value.receipts| ==> st.current.value.receipts[i].id != receiptId) ==>
              DeleteReceipt(st, receiptId).after.current == st.current
    ensures |st.sessions| <= MaxSessions && Clean(st.sessions) ==>
              var once := DeleteReceipt(st, receiptId).after;
              DeleteReceipt(once, receiptId).after == once
  {
    var c := st.current.value;
    if forall i :: 0 <= i < |c.receipts| ==> c.receipts[i].id != receiptId {
      RemoveAbsent(c.receipts, receiptId);
    }
    if |st.sessions| <= MaxSessions && Clean(st.sessions) {
      var c1 := c.(receipts := RemoveReceipts(c.receipts, receiptId));
      var once := DeleteReceipt(st, receiptId).after;
      ReplaceCurrentSessions(st, c1);
      RemoveIdempotent(c.receipts, receiptId);
      assert once.current == Some(c1);
      assert Clean(once.sessions);
      ReplaceCurrentSessions(once, c1);
      var twice := DeleteReceipt(once, receiptId).after;
      assert twice.sessions == once.sessions;
    }
  }

  /** `endSession()`, also the final transition of a successful `submitSession`. */
  function EndSession(st: Snapshot): (r: Step)
    ensures st.current.None? ==> r == Step(st, None)
    ensures st.current.Some? ==> r.after.current == None
    ensures r.written.Some? ==> r.written.value == r.after.sessions
  {
    match st.current
    case None => Step(st, None)
    case Some(c) =>
      var saved := Save(st, ReplaceById(st.sessions, c.id, c.(status := Submitted)));
      Step(saved.after.(current := None), saved.written)
  }

  /** Ending marks every entry with the current id as submitted, with the
      current session's receipts, and leaves every other entry unchanged. */
  lemma EndSessionMarksSubmitted(st: Snapshot)
    requires st.current.Some? && |st.sessions| <= MaxSessions && Clean(st.sessions)
    ensures var c := st.current.value;
            var after := EndSession(st).after.sessions;
            && |after| == |st.sessions|
            && (forall i :: 0 <= i < |after| && st.sessions[i].id == c.id ==>
                  after[i].status == Submitted && after[i].receipts == c.receipts && after[i] == c.(status := Submitted))
            && (forall i :: 0 <= i < |after| && st.sessions[i].id != c.id ==> after[i] == st.sessions[i])
  {
    var c := st.current.value;
    ReplaceKeepsClean(st.sessions, c.(status := Submitted));
    SanitizeClean(ReplaceById(st.sessions, c.id, c.(status := Submitted)));
  }

  /** `loadSessions()` given what `getItem('sessions')` answered and a parser
      that gives `None` where `JSON.parse` throws. */
  function Load(st: Snapshot, stored: Option<string>, parse: string -> Option<seq<Session>>): (r: Snapshot)
    ensures CurrentActive(st) ==> CurrentActive(r)
  {
    if stored.Some? && stored.value != "" then
      match parse(stored.value)
      case None => st
      case Some(parsed) =>
        Snapshot(match FirstActive(parsed) case Some(a) => Some(a) case None => st.current, parsed)
    else st
  }

  /** After a successful parse the list is the parsed one and the first active
      entry becomes current; with none, current stays as it was. Nothing
      stored, or a parse failure, changes nothing. */
  lemma LoadFindsFirstActive(st: Snapshot, stored: Option<string>, parse: string -> Option<seq<Session>>)
    ensures (stored.None? || stored.value == "") ==> Load(st, stored, parse) == st
    ensures stored.Some? && stored.value != "" && parse(stored.value).None? ==> Load(st, stored, parse) == st
    ensures stored.Some? && stored.value != "" && parse(stored.value).Some? ==>
              var parsed := parse(stored.value).value;
              var r := Load(st, stored, parse);
              && r.sessions == parsed
              && ((exists i :: 0 <= i < |parsed| && parsed[i].status == Active) ==>
                    exists i :: 0 <= i < |parsed| && r.current == Some(parsed[i]) && parsed[i].status == Active
                                && forall j :: 0 <= j < i ==> parsed[j].status != Active)
              && ((forall i :: 0 <= i < |parsed| ==> parsed[i].status != Active) ==> r.current == st.current)
  {
  }

  /** Every operation keeps the current session, if any, in status active. */
  lemma StepsKeepCurrentActive(st: Snapshot, receipt: Receipt, id: string, p: ReceiptPatch,
                               userInfo: Option<SessionUserInfo>, createdAt: int)
    requires CurrentActive(st)
    ensures CurrentActive(StartNewSession(st, userInfo, id, createdAt).after)
    ensures CurrentActive(AddReceipt(st, receipt).after)
    ensures CurrentActive(UpdateReceipt(st, id, p).after)
    ensures CurrentActive(DeleteReceipt(st, id).after)
    ensures CurrentActive(EndSession(st).after)
  {
  }
}
