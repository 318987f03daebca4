/** The session provider: the current session, the list of all sessions and
    the loading flag, kept in memory and written through to storage under
    the key "sessions". Each method performs one operation on the latest
    state; its effect is the matching step of `SessionModel`. */
module SessionStore {
  import opened Results
  import opened ReceiptTypes
  import SessionModel
  import Storage
  import Text
  import Submission

  const SessionsKey := "sessions"

  /** Storage after an operation: the written list, serialized by `encode`,
      goes through `setItem` (which may refuse it). */
  function Persist(items: map<string, string>, written: Option<seq<Session>>,
                   encode: seq<Session> -> string): (r: map<string, string>)
    ensures written.None? ==> r == items
    ensures written.Some? && !Storage.ValueOk(encode(written.value)) ==> r == items
    ensures written.Some? && Storage.ValueOk(encode(written.value)) ==>
              SessionsKey in r && r[SessionsKey] == Text.Trim(encode(written.value))
    ensures forall k :: k in items && k != SessionsKey ==> k in r && r[k] == items[k]
  {
    assert Text.TrimStart(SessionsKey) == SessionsKey;
    assert Text.TrimEnd(SessionsKey) == SessionsKey;
    match written
    case None => items
    case Some(xs) => Storage.Put(items, SessionsKey, encode(xs))
  }

  /** What a later load reads is what the last write stored: the written list
      comes back when serializing it fits the value limit and parsing undoes
      serializing; an over-long serialization leaves storage as it was. */
  lemma SaveThenLoad(items: map<string, string>, xs: seq<Session>, st: SessionModel.Snapshot,
                     encode: seq<Session> -> string, decode: string -> Option<seq<Session>>)
    requires decode(Text.Trim(encode(xs))) == Some(xs)
    ensures Storage.ValueOk(encode(xs)) ==>
              SessionModel.Load(st, Storage.Get(Persist(items, Some(xs), encode), SessionsKey), decode).sessions == xs
    ensures !Storage.ValueOk(encode(xs)) ==> Persist(items, Some(xs), encode) == items
  {
    assert Text.TrimStart(SessionsKey) == SessionsKey;
    assert Text.TrimEnd(SessionsKey) == SessionsKey;
  }

  class Store {
    var currentSession: Option<Session>
    var sessions: seq<Session>
    var isLoading: bool
    const storage: Storage.KeyValueStore
    /** `JSON.stringify` of a session list. */
    const encode: seq<Session> -> string
    /** `JSON.parse` into a session list; `None` where it throws. */
    const decode: string -> Option<seq<Session>>

    function Snapshot(): SessionModel.Snapshot
      reads this
    {
      SessionModel.Snapshot(currentSession, sessions)
    }

    ghost predicate Valid()
      reads this
    {
      SessionModel.CurrentActive(Snapshot())
    }

    constructor(storage: Storage.KeyValueStore, encode: seq<Session> -> string,
                decode: string -> Option<seq<Session>>)
      ensures Valid()
      ensures currentSession == None && sessions == [] && isLoading
      ensures this.storage == storage && this.encode == encode && this.decode == decode
    {
      currentSession := None;
      sessions := [];
      isLoading := true;
      this.storage := storage;
      this.encode := encode;
      this.decode := decode;
    }

    /** `loadSessions`: read, parse, pick the first active session; the
        loading flag is cleared on every path. */
    method LoadSessions()
      requires Valid()
      modifies this
      ensures Valid()
      ensures Snapshot() == SessionModel.Load(old(Snapshot()), Storage.Get(storage.items, SessionsKey), decode)
      ensures !isLoading
    {
      var stored := storage.GetItem(SessionsKey);
      if stored.Some? && stored.value != "" {
        var parsed := decode(stored.value);
        if parsed.Some? {
          sessions := parsed.value;
          var active := SessionModel.FirstActive(parsed.value);
          if active.Some? {
            currentSession := active;
          }
        }
      }
      isLoading := false;
    }

    /** `saveSessions(updated)`. */
    method SaveSessions(updated: seq<Session>)
      modifies this, storage
      ensures var step := SessionModel.Save(old(Snapshot()), updated);
              Snapshot() == step.after && storage.items == Persist(old(storage.items), step.written, encode)
      ensures isLoading == old(isLoading)
    {
      if |updated| <= SessionModel.MaxSessions {
        var sanitized := SessionModel.Sanitize(updated);
        storage.SetItem(SessionsKey, encode(sanitized));
        sessions := sanitized;
      }
    }

    /** `startNewSession(userInfo)`; the id is the decimal rendering of one
        clock reading, `createdAt` another. */
    method StartNewSession(userInfo: Option<SessionUserInfo>, idClock: nat, createdAt: int)
      requires Valid()
      modifies this, storage
      ensures Valid()
      ensures var step := SessionModel.StartNewSession(old(Snapshot()), userInfo, Text.DecimalString(idClock), createdAt);
              Snapshot() == step.after && storage.items == Persist(old(storage.items), step.written, encode)
      ensures isLoading == old(isLoading)
    {
      var s := Session(Text.DecimalString(idClock), [], createdAt, Active, userInfo);
      currentSession := Some(s);
      SaveSessions(sessions + [s]);
    }

    /** `addReceipt(receipt)`. */
    method AddReceipt(receipt: Receipt)
      requires Valid()
      modifies this, storage
      ensures Valid()
      ensures var step := SessionModel.AddReceipt(old(Snapshot()), receipt);
              Snapshot() == step.after && storage.items == Persist(old(storage.items), step.written, encode)
      ensures isLoading == old(isLoading)
    {
      if currentSession.None? {
        return;
      }
      var cur := currentSession.value;
      var updated := cur.(receipts := cur.receipts + [receipt]);
      currentSession := Some(updated);
      SaveSessions(SessionModel.ReplaceById(sessions, cur.id, updated));
    }

    /** `updateReceipt(receiptId, updates)`. */
    method UpdateReceipt(receiptId: string, updates: ReceiptPatch)
      requires Valid()
      modifies this, storage
      ensures Valid()
      ensures var step := SessionModel.UpdateReceipt(old(Snapshot()), receiptId, updates);
              Snapshot() == step.after && storage.items == Persist(old(storage.items), step.written, encode)
      ensures isLoading == old(isLoading)
    {
      if currentSession.None? {
        return;
      }
      var cur := currentSession.value;
      var updated := cur.(receipts := SessionModel.UpdateReceipts(cur.receipts, receiptId, updates));
      currentSession := Some(updated);
      SaveSessions(SessionModel.ReplaceById(sessions, cur.id, updated));
    }

    /** `deleteReceipt(receiptId)`. */
    method DeleteReceipt(receiptId: string)
      requires Valid()
      modifies this, storage
      ensures Valid()
      ensures var step := SessionModel.DeleteReceipt(old(Snapshot()), receiptId);
              Snapshot() == step.after && storage.items == Persist(old(storage.items), step.written, encode)
      ensures isLoading == old(isLoading)
    {
      if currentSession.None? {
        return;
      }
      var cur := currentSession.value;
      var updated := cur.(receipts := SessionModel.RemoveReceipts(cur.receipts, receiptId));
      currentSession := Some(updated);
      SaveSessions(SessionModel.ReplaceById(sessions, cur.id, updated));
    }

    /** `endSession()`. */
    method EndSession()
      requires Valid()
      modifies this, storage
      ensures Valid()
      ensures var step := SessionModel.EndSession(old(Snapshot()));
              Snapshot() == step.after && storage.items == Persist(old(storage.items), step.written, encode)
      ensures isLoading == old(isLoading)
    {
      if currentSession.None? {
        return;
      }
      var cur := currentSession.value;
      SaveSessions(SessionModel.ReplaceById(sessions, cur.id, cur.(status := Submitted)));
      currentSession := None;
    }

    /** `submitSession(emailAddress)`: refuse an empty or missing session,
        compose the report, stage the attachments, deliver, and only on
        success mark the session submitted and clear current. Every failure
        leaves the store as it was. */
    method SubmitSession(emailAddress: string, env: Submission.SubmitEnv)
      returns (outcome: Result<Submission.Channel, Submission.SubmitError>)
      requires Valid()
      modifies this, storage
      ensures Valid()
      ensures outcome == Submission.SubmitVerdict(old(currentSession), env)
      ensures outcome.Failure? ==> Snapshot() == old(Snapshot()) && storage.items == old(storage.items)
      ensures outcome.Success? ==>
                var step := SessionModel.EndSession(old(Snapshot()));
                Snapshot() == step.after && storage.items == Persist(old(storage.items), step.written, encode)
      ensures isLoading == old(isLoading)
    {
      if currentSession.None? || |currentSession.value.receipts| == 0 {
        return Failure(Submission.NoReceipts);
      }
      var cur := currentSession.value;
      var body := Submission.ComposeBody(cur, env.sessionDate, env.totalText);
      var subject := Submission.Subject(env.sessionDate, env.totalText);
      var attachments := Submission.StageAttachments(cur.receipts, cur.id, env.docDir, env.copyFailures, env.summaryWritten);
      if attachments.None? {
        return Failure(Submission.SummaryWriteFailed);
      }
      outcome := Submission.Deliver(|attachments.value|, env.delivery);
      if outcome.Failure? {
        return;
      }
      // The temporary files are deleted here; failures are only logged.
      SaveSessions(SessionModel.ReplaceById(sessions, cur.id, cur.(status := Submitted)));
      currentSession := None;
    }
  }
}
