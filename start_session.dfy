/** The start-session screen: the two names, the location picker, the
    session label derived from the initials and today's date, and the start
    button that opens a session in the store. */
module StartSession {
  import opened Results
  import opened ReceiptTypes
  import Text
  import SessionModel
  import SessionStore

  /** The label shown on the screen: both initials upper-cased, then the
      two-digit month, the two-digit day and the year; empty while either
      name is blank. */
  function SessionLabel(firstName: string, lastName: string, today: CalendarDate): (r: string)
    ensures r == [] <==> Text.Trim(firstName) == [] || Text.Trim(lastName) == []
  {
    var first, last := Text.Trim(firstName), Text.Trim(lastName);
    if first == [] || last == [] then []
    else [Text.ToUpperAscii(first[0]), Text.ToUpperAscii(last[0])]
         + Text.Pad2(today.month) + Text.Pad2(today.day) + Text.DecimalString(today.year)
  }

  /** For a real date with a four-digit year the label has ten characters:
      the two initials, then eight digits that are the month, the day and
      the year. */
  lemma SessionLabelShape(firstName: string, lastName: string, today: CalendarDate)
    requires Text.Trim(firstName) != [] && Text.Trim(lastName) != []
    requires 1 <= today.month <= 12 && 1 <= today.day <= 31 && 1000 <= today.year <= 9999
    ensures var r := SessionLabel(firstName, lastName, today);
            && |r| == 10
            && r[0] == Text.ToUpperAscii(Text.Trim(firstName)[0])
            && r[1] == Text.ToUpperAscii(Text.Trim(lastName)[0])
            && r[2..4] == Text.Pad2(today.month)
            && r[4..6] == Text.Pad2(today.day)
            && r[6..] == Text.DecimalString(today.year)
  {
    Text.DecimalStringLength(today.year);
    var first, last := Text.Trim(firstName), Text.Trim(lastName);
    var m, d, y := Text.Pad2(today.month), Text.Pad2(today.day), Text.DecimalString(today.year);
    var r := [Text.ToUpperAscii(first[0]), Text.ToUpperAscii(last[0])] + m + d + y;
    assert |m| == 2 && |d| == 2 && |y| == 4;
    assert r[2..4] == m;
    assert r[4..6] == d;
    assert r[6..] == y;
  }

  /** The date can be read back from the label. */
  lemma SessionLabelDate(firstName: string, lastName: string, today: CalendarDate)
    requires Text.Trim(firstName) != [] && Text.Trim(lastName) != []
    requires 1 <= today.month <= 12 && 1 <= today.day <= 31 && 1000 <= today.year <= 9999
    ensures var r := SessionLabel(firstName, lastName, today);
            && |r| == 10
            && Text.AllDigits(r[2..4]) && Text.DigitsValue(r[2..4]) == today.month
            && Text.AllDigits(r[4..6]) && Text.DigitsValue(r[4..6]) == today.day
            && Text.AllDigits(r[6..]) && Text.DigitsValue(r[6..]) == today.year
            && Text.AllDigits(r[2..])
  {
    SessionLabelShape(firstName, lastName, today);
    var r := SessionLabel(firstName, lastName, today);
    assert r[2..] == r[2..4] + r[4..6] + r[6..];
    DateDigits(Text.Pad2(today.month), Text.Pad2(today.day), Text.DecimalString(today.year));
    Text.Pad2Value(today.month);
    Text.Pad2Value(today.day);
    Text.DecimalStringValue(today.year);
  }

  /** Three runs of digits put together are digits. */
  lemma DateDigits(m: string, d: string, y: string)
    requires Text.AllDigits(m) && Text.AllDigits(d) && Text.AllDigits(y)
    ensures Text.AllDigits(m + d + y)
  {
    forall i | 0 <= i < |m + d + y| ensures Text.IsDigit((m + d + y)[i]) {
      if i < |m| { assert (m + d + y)[i] == m[i]; }
      else if i < |m| + |d| { assert (m + d + y)[i] == d[i - |m|]; }
      else { assert (m + d + y)[i] == y[i - |m| - |d|]; }
    }
  }

  /** Blanks typed around either name do not change the label. */
  lemma SessionLabelIgnoresBlanks(firstName: string, lastName: string, w1: string, w2: string, today: CalendarDate)
    requires Text.AllWhitespace(w1) && Text.AllWhitespace(w2)
    ensures SessionLabel(w1 + firstName + w2, lastName, today) == SessionLabel(firstName, lastName, today)
    ensures SessionLabel(firstName, w1 + lastName + w2, today) == SessionLabel(firstName, lastName, today)
  {
    Text.TrimIgnoresBlanks(w1, firstName, w2);
    Text.TrimIgnoresBlanks(w1, lastName, w2);
  }

  /** The label of Jane Doe on 31 January 2024. */
  lemma SessionLabelExample()
    ensures SessionLabel("Jane", "Doe", CalendarDate(2024, 1, 31)) == "JD01312024"
  {
    var first, last := Text.Trim("Jane"), Text.Trim("Doe");
    assert first == "Jane" && last == "Doe" by { ExampleNames(); }
    var shown := SessionLabel("Jane", "Doe", CalendarDate(2024, 1, 31));
    assert shown == [Text.ToUpperAscii(first[0]), Text.ToUpperAscii(last[0])]
                    + Text.Pad2(1) + Text.Pad2(31) + Text.DecimalString(2024);
    assert [Text.ToUpperAscii(first[0]), Text.ToUpperAscii(last[0])] == "JD" by {
      assert first[0] == 'J' && last[0] == 'D';
    }
    assert Text.Pad2(1) + Text.Pad2(31) + Text.DecimalString(2024) == "01312024" by { ExampleDate(); }
  }

  /** The example's names are already trimmed. */
  lemma ExampleNames()
    ensures Text.Trim("Jane") == "Jane" && Text.Trim("Doe") == "Doe"
  {
    assert Text.Trim("Jane") == "Jane" by {
      var s := "Jane";
      assert s[0] == 'J' && s[|s| - 1] == 'e';
      assert !Text.IsWhitespace('J') && !Text.IsWhitespace('e');
      Text.TrimUnpadded(s);
    }
    var s := "Doe";
    assert s[0] == 'D' && s[|s| - 1] == 'e';
    assert !Text.IsWhitespace('D') && !Text.IsWhitespace('e');
    Text.TrimUnpadded(s);
  }

  /** The example's date parts, rendered. */
  lemma ExampleDate()
    ensures Text.Pad2(1) == "01" && Text.Pad2(31) == "31" && Text.DecimalString(2024) == "2024"
  {
    assert Text.DigitChar(0) == '0' && Text.DigitChar(1) == '1' && Text.DigitChar(3) == '3';
    assert Text.DigitChar(2) == '2' && Text.DigitChar(4) == '4';
    assert Text.DecimalString(2) == "2";
    assert Text.DecimalString(20) == "20";
    assert Text.DecimalString(202) == "202";
  }

  /** The screen's state: the two names, the chosen location and the label
      shown as the session id. */
  class StartSessionForm {
    var firstName: string
    var lastName: string
    var location: Location
    var sessionId: string

    /** Blank names, location GR, no label. */
    constructor()
      ensures firstName == [] && lastName == [] && location == GR && sessionId == []
    {
      firstName, lastName, location, sessionId := [], [], GR, [];
    }

    /** Typing in the first-name field; the label is derived again. */
    method SetFirstName(name: string, today: CalendarDate)
      modifies this`firstName, this`sessionId
      ensures firstName == name
      ensures sessionId == SessionLabel(name, lastName, today)
    {
      firstName := name;
      sessionId := SessionLabel(firstName, lastName, today);
    }

    /** Typing in the last-name field; the label is derived again. */
    method SetLastName(name: string, today: CalendarDate)
      modifies this`lastName, this`sessionId
      ensures lastName == name
      ensures sessionId == SessionLabel(firstName, name, today)
    {
      lastName := name;
      sessionId := SessionLabel(firstName, lastName, today);
    }

    /** Choosing a location in the picker; the label is left as it is. */
    method SelectLocation(l: Location)
      modifies this`location
      ensures location == l
    {
      location := l;
    }

    /** `handleStartSession()`: with a blank name nothing starts; otherwise a
        session is started with the trimmed names, the location and the
        label. */
    method HandleStartSession(store: SessionStore.Store, idClock: nat, createdAt: int) returns (started: bool)
      requires store.Valid()
      modifies store, store.storage
      ensures store.Valid()
      ensures started <==> Text.Trim(firstName) != [] && Text.Trim(lastName) != []
      ensures !started ==>
                store.Snapshot() == old(store.Snapshot()) && store.storage.items == old(store.storage.items)
      ensures started ==>
                var info := SessionUserInfo(Text.Trim(firstName), Text.Trim(lastName), location, sessionId);
                var step := SessionModel.StartNewSession(old(store.Snapshot()), Some(info), Text.DecimalString(idClock), createdAt);
                store.Snapshot() == step.after
                && store.storage.items == SessionStore.Persist(old(store.storage.items), step.written, store.encode)
    {
      var first, last := Text.Trim(firstName), Text.Trim(lastName);
      if first == [] || last == [] {
        return false;
      }
      store.StartNewSession(Some(SessionUserInfo(first, last, location, sessionId)), idClock, createdAt);
      return true;
    }
  }
}
