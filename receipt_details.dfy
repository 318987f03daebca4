/** The receipt form: its input sanitisers, the GL-code choice, the checks
    made on save and the default date. The form's fields live in
    `ReceiptForm`; the rules they follow are the functions before it. */
module ReceiptDetails {
  import opened Results
  import opened ReceiptTypes
  import Text
  import Seqs
  import Categories
  import SessionModel
  import SessionStore
  import Submission

  // ---------------------------------------------------------------------
  // Date field

  /** `input.replace(/\D/g, '')`. */
  function DigitsOnly(input: string): (r: string)
    ensures |r| <= |input| && Text.AllDigits(r)
  {
    Seqs.Filter(input, Text.IsDigit)
  }

  /** What the date field holds after typing `input`: its digits, cut to the first eight. */
  function FormatDateText(input: string): (r: string)
    ensures |r| <= 8 && Text.AllDigits(r)
    ensures |r| == if |DigitsOnly(input)| < 8 then |DigitsOnly(input)| else 8
    ensures r == DigitsOnly(input)[..|r|]
  {
    var cleaned := DigitsOnly(input);
    if |cleaned| > 8 then cleaned[..8] else cleaned
  }

  /** Formatting what the field already holds changes nothing. */
  lemma FormatDateIdempotent(input: string)
    ensures FormatDateText(FormatDateText(input)) == FormatDateText(input)
  {
    var r := FormatDateText(input);
    Seqs.FilterAll(r, Text.IsDigit);
  }

  /** The digits of a text keep their order: the digits of a concatenation
      are the digits of each part, and a character is kept exactly when it
      is a digit. */
  lemma DigitsOnlyInOrder(a: string, b: string, c: char)
    ensures DigitsOnly(a + b) == DigitsOnly(a) + DigitsOnly(b)
    ensures DigitsOnly([c]) == if Text.IsDigit(c) then [c] else []
  {
    Seqs.FilterAppend(a, b, Text.IsDigit);
  }

  /** `${d.slice(0, 2)}/${d.slice(2, 4)}/${d.slice(4, 8)}`. */
  function SlashDate(d: string): (r: string)
    requires |d| == 8
    ensures |r| == 10 && r[2] == '/' && r[5] == '/'
  {
    d[..2] + "/" + d[2..4] + "/" + d[4..8]
  }

  /** A slash between digits disappears when the digits are taken. */
  lemma DigitsOnlyDropsSlash(a: string, b: string)
    requires Text.AllDigits(a)
    ensures DigitsOnly(a + ("/" + b)) == a + DigitsOnly(b)
  {
    Seqs.FilterAppend(a, "/" + b, Text.IsDigit);
    assert DigitsOnly("/" + b) == DigitsOnly(b) by {
      Seqs.FilterAppend("/", b, Text.IsDigit);
      assert DigitsOnly("/") == [];
    }
    Seqs.FilterAll(a, Text.IsDigit);
  }

  /** The stored date is `MM/DD/YYYY`: the typed digits in three groups with
      a slash after the second and the fourth. */
  lemma SlashDateShape(d: string)
    requires |d| == 8
    ensures var r := SlashDate(d);
            |r| == 10 && r[2] == '/' && r[5] == '/'
            && r[..2] == d[..2] && r[3..5] == d[2..4] && r[6..] == d[4..]
  {
  }

  /** Dropping the slashes from the stored date gives back the eight digits
      that were typed. */
  lemma SlashDateRoundTrip(d: string)
    requires |d| == 8 && Text.AllDigits(d)
    ensures DigitsOnly(SlashDate(d)) == d
  {
    var a, b, c := d[..2], d[2..4], d[4..8];
    assert SlashDate(d) == a + ("/" + (b + ("/" + c)));
    assert DigitsOnly(a + ("/" + (b + ("/" + c)))) == a + (b + c) by {
      assert Text.AllDigits(a) && Text.AllDigits(b) && Text.AllDigits(c);
      DigitsOnlyDropsSlash(a, b + ("/" + c));
      DigitsOnlyDropsSlash(b, c);
      Seqs.FilterAll(c, Text.IsDigit);
    }
    assert a + (b + c) == d;
  }

  /** Typing the stored date back into the date field gives the digits. */
  lemma RetypedDate(d: string)
    requires |d| == 8 && Text.AllDigits(d)
    ensures FormatDateText(SlashDate(d)) == d
  {
    SlashDateRoundTrip(d);
  }

  /** The default date of a new receipt: two-digit month, two-digit day, year. */
  function DefaultDate(month: nat, day: nat, year: nat): (r: string)
    ensures |r| >= 5 && Text.AllDigits(r)
  {
    Text.Pad2(month) + Text.Pad2(day) + Text.DecimalString(year)
  }

  /** For a real calendar date with a four-digit year the default is eight
      digits, so it passes the length check of save. */
  lemma DefaultDateShape(month: nat, day: nat, year: nat)
    requires 1 <= month <= 12 && 1 <= day <= 31 && 1000 <= year <= 9999
    ensures |DefaultDate(month, day, year)| == 8
    ensures Text.AllDigits(DefaultDate(month, day, year))
    ensures DefaultDate(month, day, year)[..2] == Text.Pad2(month)
    ensures DefaultDate(month, day, year)[2..4] == Text.Pad2(day)
    ensures DefaultDate(month, day, year)[4..] == Text.DecimalString(year)
  {
    Text.DecimalStringLength(year);
    var m, d, y := Text.Pad2(month), Text.Pad2(day), Text.DecimalString(year);
    var r := m + d + y;
    assert |m| == 2 && |d| == 2 && |y| == 4;
    assert r[..2] == m;
    assert r[2..4] == d;
    assert r[4..] == y;
  }

  /** ... and it is stored as `MM/DD/YYYY`. */
  lemma DefaultDateStored(month: nat, day: nat, year: nat)
    requires 1 <= month <= 12 && 1 <= day <= 31 && 1000 <= year <= 9999
    ensures |DefaultDate(month, day, year)| == 8
    ensures SlashDate(DefaultDate(month, day, year)) == Text.Pad2(month) + "/" + Text.Pad2(day) + "/" + Text.DecimalString(year)
  {
    DefaultDateShape(month, day, year);
    var r := DefaultDate(month, day, year);
    assert r[..2] == Text.Pad2(month) && r[2..4] == Text.Pad2(day) && r[4..8] == Text.DecimalString(year);
  }

  // ---------------------------------------------------------------------
  // Cost field

  predicate IsCostChar(c: char) {
    Text.IsDigit(c) || c == '.'
  }

  predicate AtMostOneDot(s: string) {
    forall i, j :: 0 <= i < j < |s| && s[i] == '.' ==> s[j] != '.'
  }

  /** Two different positions hold a `.`. */
  predicate TwoDots(s: string) {
    exists i, j :: 0 <= i < j < |s| && s[i] == '.' && s[j] == '.'
  }

  /** Every character after a `.` is at most the second after it. */
  predicate AtMostTwoDecimals(s: string) {
    forall i :: 0 <= i < |s| && s[i] == '.' ==> |s| - i - 1 <= 2
  }

  /** The position of the first `.`. */
  function FirstDot(s: string): (k: nat)
    requires '.' in s
    ensures k < |s| && s[k] == '.'
    ensures forall j :: 0 <= j < k ==> s[j] != '.'
  {
    if s[0] == '.' then 0 else 1 + FirstDot(s[1..])
  }

  /** The cost field after typing `input`, or `None` when the keystroke is
      ignored: keep digits and `.`; with two or more `.` leave the field
      alone; otherwise cut the part after the `.` to two characters. */
  function FormatCostText(input: string): (r: Option<string>)
    ensures r.None? <==> !AtMostOneDot(Seqs.Filter(input, IsCostChar))
  {
    var cleaned := Seqs.Filter(input, IsCostChar);
    if !AtMostOneDot(cleaned) then None else Some(CutToCents(cleaned))
  }

  /** Text with at most one `.`, cut to two characters after it: the
      result is the text's prefix that keeps everything before the `.`, the
      `.` itself and at most two characters after it. */
  function CutToCents(cleaned: string): (r: string)
    requires AtMostOneDot(cleaned)
    ensures |r| <= |cleaned| && r == cleaned[..|r|]
    ensures '.' !in cleaned ==> r == cleaned
    ensures '.' in cleaned ==>
              |r| == if |cleaned| - FirstDot(cleaned) - 1 > 2 then FirstDot(cleaned) + 3 else |cleaned|
    ensures AtMostOneDot(r) && AtMostTwoDecimals(r)
  {
    if '.' !in cleaned then cleaned
    else
      var k := FirstDot(cleaned);
      var fraction := cleaned[k + 1..];
      if |fraction| > 2 then
        assert cleaned[..k] + "." + fraction[..2] == cleaned[..k + 3];
        cleaned[..k] + "." + fraction[..2]
      else cleaned
  }

  /** The keystroke is ignored exactly when the digits-and-dots text has two
      `.`; otherwise the result has only digits and at most one `.`, at most
      two characters follow it, and it is the prefix of the cleaned input
      that keeps every digit before the `.` and the first two after it. */
  lemma FormatCostShape(input: string)
    ensures FormatCostText(input).None? <==> TwoDots(Seqs.Filter(input, IsCostChar))
    ensures var r := FormatCostText(input);
            r.Some? ==>
              && (forall i :: 0 <= i < |r.value| ==> IsCostChar(r.value[i]))
              && AtMostOneDot(r.value) && AtMostTwoDecimals(r.value)
              && |r.value| <= |Seqs.Filter(input, IsCostChar)|
              && r.value == Seqs.Filter(input, IsCostChar)[..|r.value|]
    ensures var r := FormatCostText(input);
            var cleaned := Seqs.Filter(input, IsCostChar);
            r.Some? ==>
              && ('.' !in cleaned ==> r.value == cleaned)
              && ('.' in cleaned ==>
                    |r.value| == if |cleaned| - FirstDot(cleaned) - 1 > 2 then FirstDot(cleaned) + 3 else |cleaned|)
  {
    var cleaned := Seqs.Filter(input, IsCostChar);
    if !AtMostOneDot(cleaned) {
      var i, j :| 0 <= i < j < |cleaned| && cleaned[i] == '.' && cleaned[j] == '.';
      assert TwoDots(cleaned);
    }
    var r := FormatCostText(input);
    if r.Some? {
      assert r.value == cleaned[..|r.value|];
      forall i | 0 <= i < |r.value| ensures IsCostChar(r.value[i]) {
        assert r.value[i] == cleaned[i];
      }
    }
  }

  /** `12.345` is cut to `12.34`; `12.5` is kept whole. */
  lemma CutToCentsExamples()
    ensures AtMostOneDot("12.345") && CutToCents("12.345") == "12.34"
    ensures AtMostOneDot("12.5") && CutToCents("12.5") == "12.5"
  {
    var a := "12.345";
    assert a[0] != '.' && a[1] != '.' && a[2] == '.' && a[3] != '.' && a[4] != '.' && a[5] != '.';
    assert AtMostOneDot(a);
    assert FirstDot(a) == 2;
    assert CutToCents(a) == a[..5];
    var b := "12.5";
    assert b[0] != '.' && b[1] != '.' && b[2] == '.' && b[3] != '.';
    assert AtMostOneDot(b);
    assert FirstDot(b) == 2;
  }

  /** A cost the field already holds comes back unchanged. */
  lemma FormatCostIdempotent(input: string)
    requires FormatCostText(input).Some?
    ensures FormatCostText(FormatCostText(input).value) == FormatCostText(input)
  {
    var cleaned := Seqs.Filter(input, IsCostChar);
    var r := CutToCents(cleaned);
    assert forall i :: 0 <= i < |r| ==> IsCostChar(r[i]) by {
      forall i | 0 <= i < |r| ensures IsCostChar(r[i]) {
        assert r[i] == cleaned[i];
      }
    }
    Seqs.FilterAll(r, IsCostChar);
    assert CutToCents(r) == r by {
      if '.' in r {
        var k := FirstDot(r);
        assert |r[k + 1..]| <= 2;
      }
    }
  }

  // ---------------------------------------------------------------------
  // Category and GL code

  /** `currentSession?.userInfo?.location`: the location recorded when the
      current session was started, if there is such a session. */
  function SessionLocation(current: Option<Session>): (l: Option<Location>)
    ensures l.Some? <==> current.Some? && current.value.userInfo.Some?
    ensures l.Some? ==> l.value == current.value.userInfo.value.location
  {
    if current.Some? && current.value.userInfo.Some? then Some(current.value.userInfo.value.location) else None
  }

  /** The GL code after choosing `categoryName`: the sentinel code verbatim;
      another code suffixed with `-LOC` when the session has a location, bare
      otherwise; an unknown name keeps the previous code. */
  function GlCodeFor(categoryName: string, location: Option<Location>, previous: string): (r: string)
    ensures Categories.FindByName(Categories.Catalogue, categoryName).None? ==> r == previous
  {
    GlCodeOf(Categories.FindByName(Categories.Catalogue, categoryName), location, previous)
  }

  /** The same choice, given the result of the name lookup. */
  function GlCodeOf(found: Option<Category>, location: Option<Location>, previous: string): (r: string)
    ensures found.None? ==> r == previous
    ensures found.Some? ==> |found.value.glCode| <= |r| && r[..|found.value.glCode|] == found.value.glCode
    ensures found.Some? && (location.None? || found.value.glCode == Categories.MiscExpense) ==> r == found.value.glCode
    ensures found.Some? && location.Some? && found.value.glCode != Categories.MiscExpense ==>
              r[|found.value.glCode|..] == "-" + LocationCode(location.value)
  {
    match found
    case None => previous
    case Some(c) =>
      if location.Some? then
        if c.glCode == Categories.MiscExpense then c.glCode
        else c.glCode + "-" + LocationCode(location.value)
      else c.glCode
  }

  /** The GL code of each catalogue entry, with and without a location. */
  lemma GlCodeForCatalogue(c: Category, l: Location, previous: string)
    requires c in Categories.Catalogue
    ensures GlCodeFor(c.name, Some(l), previous) ==
              if c.name == "Misc. Expense" then Categories.MiscExpense else c.glCode + "-" + LocationCode(l)
    ensures GlCodeFor(c.name, None, previous) == c.glCode
  {
    Categories.CatalogueNamesDistinct(c.name);
    Categories.CatalogueCodes();
  }

  /** A name outside the catalogue keeps the previous code. */
  lemma GlCodeForUnknown(name: string, location: Option<Location>, previous: string)
    requires forall c :: c in Categories.Catalogue ==> c.name != name
    ensures GlCodeFor(name, location, previous) == previous
  {
  }

  /** Gasoline at GR gets `6190-01-GR`. */
  lemma GlCodeGasoline(previous: string)
    ensures GlCodeFor("Gasoline", Some(GR), previous) == "6190-01-GR"
  {
    var gas := Categories.Catalogue[0];
    assert gas.name == "Gasoline" && gas.glCode == "6190-01";
    GlCodeForCatalogue(gas, GR, previous);
  }

  /** Misc. Expense stays `Misc. Expense` at every location. */
  lemma GlCodeMisc(l: Location, previous: string)
    ensures GlCodeFor("Misc. Expense", Some(l), previous) == "Misc. Expense"
  {
    var misc := Categories.Catalogue[4];
    assert misc.name == "Misc. Expense";
    GlCodeForCatalogue(misc, l, previous);
  }

  /** A category choice is taken when the trimmed name is not empty and has
      at most 100 characters. */
  function CategoryNameOk(name: string): (ok: bool)
    ensures ok <==> !Text.AllWhitespace(name) && |Text.Trim(name)| <= 100
  {
    Text.TrimEmptyIff(name);
    var trimmed := Text.Trim(name);
    trimmed != [] && |trimmed| <= 100
  }

  // ---------------------------------------------------------------------
  // Save

  datatype SaveProblem = MissingInfo | InvalidDate

  /** The checks `handleSave` makes, in order. Month and day are not range-checked. */
  function SaveCheck(date: string, description: string, category: string, cost: string): (r: Option<SaveProblem>)
    ensures r == Some(MissingInfo) <==> date == [] || description == [] || category == [] || cost == []
    ensures r == Some(InvalidDate) <==> date != [] && description != [] && category != [] && cost != [] && |date| != 8
    ensures r == None <==> date != [] && description != [] && category != [] && cost != [] && |date| == 8
  {
    if date == [] || description == [] || category == [] || cost == [] then Some(MissingInfo)
    else if |date| != 8 then Some(InvalidDate)
    else None
  }

  /** Edit mode loads the stored date into the date field. The field holds
      the typed digits, while the store holds `MM/DD/YYYY`; as written the
      stored text goes into the field unchanged. */
  function PrefillDateAsWritten(stored: string): (r: string)
    ensures r == stored
  {
    stored
  }

  /** As written, saving an edited receipt whose date field was not touched
      is refused as an invalid date: the loaded text has ten characters. */
  lemma UntouchedDateRejectedAsWritten(d: string, description: string, category: string, cost: string)
    requires |d| == 8 && Text.AllDigits(d)
    requires description != [] && category != [] && cost != []
    ensures SaveCheck(PrefillDateAsWritten(SlashDate(d)), description, category, cost) == Some(InvalidDate)
  {
    SlashDateShape(d);
  }

  /** The date field shows the stored date the way the user types it: the
      stored text passed through the date field's own filter. */
  function PrefillDate(stored: string): (r: string)
    ensures |r| <= 8 && Text.AllDigits(r)
  {
    FormatDateText(stored)
  }

  /** With the stored date put back into typed form, an untouched date passes
      the check of save and is stored again exactly as it was. */
  lemma UntouchedDateKept(d: string, description: string, category: string, cost: string)
    requires |d| == 8 && Text.AllDigits(d)
    requires description != [] && category != [] && cost != []
    ensures PrefillDate(SlashDate(d)) == d
    ensures SaveCheck(PrefillDate(SlashDate(d)), description, category, cost) == None
    ensures SlashDate(PrefillDate(SlashDate(d))) == SlashDate(d)
  {
    RetypedDate(d);
  }

  /** The route parameters of the form; an empty string stands for an
      absent parameter (both are falsy). */
  datatype RouteParams = RouteParams(editMode: bool, receiptId: string, imageUri: string)

  /** The fields of the receipt form. */
  class ReceiptForm {
    var date: string
    var description: string
    var purpose: string
    var selectedCategory: string
    var cost: string
    var glCode: string

    constructor()
      ensures date == [] && description == [] && purpose == [] && selectedCategory == [] && cost == [] && glCode == []
    {
      date, description, purpose, selectedCategory, cost, glCode := [], [], [], [], [], [];
    }

    /** The effect that runs when the form opens: in edit mode the fields of
        the receipt with the route's id are copied in; otherwise the date is
        set to today's default. */
    method Prefill(route: RouteParams, current: Option<Session>, today: CalendarDate)
      modifies this
      ensures route.editMode && route.receiptId != [] && current.Some? ==>
                var found := Seqs.Find(current.value.receipts, (r: Receipt) => r.id == route.receiptId);
                if found.Some? then
                  && date == PrefillDateAsWritten(found.value.date) && description == found.value.description
                  && purpose == found.value.purpose && selectedCategory == found.value.category
                  && cost == found.value.cost && glCode == found.value.glCode
                else unchanged(this)
      ensures !(route.editMode && route.receiptId != [] && current.Some?) ==>
                && date == DefaultDate(today.month, today.day, today.year)
                && description == old(description) && purpose == old(purpose)
                && selectedCategory == old(selectedCategory) && cost == old(cost) && glCode == old(glCode)
    {
      if route.editMode && route.receiptId != [] && current.Some? {
        var found := Seqs.Find(current.value.receipts, (r: Receipt) => r.id == route.receiptId);
        if found.Some? {
          var r := found.value;
          date, description, purpose, selectedCategory, cost, glCode :=
            PrefillDateAsWritten(r.date), r.description, r.purpose, r.category, r.cost, r.glCode;
        }
      } else {
        date := DefaultDate(today.month, today.day, today.year);
      }
    }

    /** `handleCategorySelect(categoryName)`. */
    method HandleCategorySelect(categoryName: string, current: Option<Session>)
      modifies this`selectedCategory, this`glCode
      ensures !CategoryNameOk(categoryName) ==> unchanged(this)
      ensures CategoryNameOk(categoryName) ==>
                && selectedCategory == Text.Trim(categoryName)
                && glCode == GlCodeFor(Text.Trim(categoryName), SessionLocation(current), old(glCode))
    {
      var trimmed := Text.Trim(categoryName);
      if CategoryNameOk(categoryName) {
        var code := GlCodeFor(trimmed, SessionLocation(current), glCode);
        selectedCategory, glCode := trimmed, code;
      }
    }

    /** `formatDate(input)`. */
    method FormatDate(input: string)
      modifies this`date
      ensures date == FormatDateText(input)
    {
      date := FormatDateText(input);
    }

    /** `formatCost(input)`. */
    method FormatCost(input: string)
      modifies this`cost
      ensures cost == FormatCostText(input).GetOr(old(cost))
    {
      var text := FormatCostText(input);
      if text.Some? {
        cost := text.value;
      }
    }

    /** The receipt `handleSave` builds from the form; the id falls back to
        one clock reading, the timestamp is another. */
    function ReceiptData(route: RouteParams, idClock: nat, timestamp: int): (r: Receipt)
      reads this
      requires |date| == 8
      ensures r.id != []
      ensures route.receiptId != [] ==> r.id == route.receiptId
      ensures route.receiptId == [] ==> r.id == Text.DecimalString(idClock)
      ensures r.date == SlashDate(date)
      ensures |r.date| == 10 && (Text.AllDigits(date) ==> DigitsOnly(r.date) == date)
      ensures r.imageUri == route.imageUri && r.description == description && r.purpose == purpose
      ensures r.category == selectedCategory && r.glCode == glCode && r.cost == cost && r.timestamp == timestamp
    {
      assert Text.AllDigits(date) ==> DigitsOnly(SlashDate(date)) == date by {
        if Text.AllDigits(date) {
          SlashDateRoundTrip(date);
        }
      }
      Receipt(if route.receiptId != [] then route.receiptId else Text.DecimalString(idClock),
              route.imageUri, SlashDate(date), description, purpose, selectedCategory,
              glCode, cost, timestamp)
    }

    /** `handleSave()`: refuse with the first problem found, otherwise update
        the receipt with the route's id in edit mode, or add a new one. */
    method HandleSave(route: RouteParams, store: SessionStore.Store, idClock: nat, timestamp: int)
      returns (problem: Option<SaveProblem>)
      requires store.Valid()
      modifies store, store.storage
      ensures store.Valid()
      ensures problem == SaveCheck(date, description, selectedCategory, cost)
      ensures problem.Some? ==>
                store.Snapshot() == old(store.Snapshot()) && store.storage.items == old(store.storage.items)
      ensures problem.None? && route.editMode ==>
                var step := SessionModel.UpdateReceipt(old(store.Snapshot()), route.receiptId,
                                                       FullPatch(ReceiptData(route, idClock, timestamp)));
                store.Snapshot() == step.after
                && store.storage.items == SessionStore.Persist(old(store.storage.items), step.written, store.encode)
      ensures problem.None? && !route.editMode ==>
                var step := SessionModel.AddReceipt(old(store.Snapshot()), ReceiptData(route, idClock, timestamp));
                store.Snapshot() == step.after
                && store.storage.items == SessionStore.Persist(old(store.storage.items), step.written, store.encode)
    {
      problem := SaveCheck(date, description, selectedCategory, cost);
      if problem.Some? {
        return;
      }
      var receipt := ReceiptData(route, idClock, timestamp);
      if route.editMode {
        store.UpdateReceipt(route.receiptId, FullPatch(receipt));
      } else {
        store.AddReceipt(receipt);
      }
    }
  }

  /** Opening a saved receipt for editing and pressing save without touching
      the date: as written, the save is refused as an invalid date and the
      store is left alone. */
  method EditUntouchedDate(form: ReceiptForm, route: RouteParams, current: Session, today: CalendarDate,
                           store: SessionStore.Store, idClock: nat, timestamp: int, d: string)
    returns (problem: Option<SaveProblem>)
    requires route.editMode && route.receiptId != []
    requires |d| == 8 && Text.AllDigits(d)
    requires exists i :: 0 <= i < |current.receipts| && current.receipts[i].id == route.receiptId
    requires forall r :: r in current.receipts && r.id == route.receiptId ==>
               && r.date == SlashDate(d) && r.description != [] && r.category != [] && r.cost != []
    requires store.Valid()
    modifies form, store, store.storage
    ensures problem == Some(InvalidDate)
    ensures store.Snapshot() == old(store.Snapshot()) && store.storage.items == old(store.storage.items)
  {
    form.Prefill(route, Some(current), today);
    var found := Seqs.Find(current.receipts, (r: Receipt) => r.id == route.receiptId);
    assert found.Some? && found.value in current.receipts;
    UntouchedDateRejectedAsWritten(d, found.value.description, found.value.category, found.value.cost);
    problem := form.HandleSave(route, store, idClock, timestamp);
  }

  /** The edit route carries no image (it is opened with the receipt id and
      the mode only), so the saved receipt has an empty image, and the full
      update overwrites the stored photo: as written, the edited receipt
      loses its image and is no longer attached at submission. */
  lemma EditDropsImageAsWritten(form: ReceiptForm, route: RouteParams, idClock: nat, timestamp: int,
                                st: SessionModel.Snapshot, k: nat, copyFailures: set<nat>)
    requires |form.date| == 8
    requires route.editMode && route.receiptId != [] && route.imageUri == []
    requires st.current.Some? && k < |st.current.value.receipts|
    requires st.current.value.receipts[k].id == route.receiptId && st.current.value.receipts[k].imageUri != []
    ensures var saved := form.ReceiptData(route, idClock, timestamp);
            var after := SessionModel.UpdateReceipt(st, route.receiptId, FullPatch(saved)).after.current.value.receipts;
            && k < |after| && after[k].imageUri == []
            && Submission.Staged(st.current.value.receipts[k], k, {})
            && !Submission.Staged(after[k], k, copyFailures)
  {
    var saved := form.ReceiptData(route, idClock, timestamp);
    SessionModel.UpdateReceiptMerges(st, route.receiptId, FullPatch(saved));
  }

  /** The update an edit should send: every field of the saved receipt,
      except that an empty image is left out so the stored photo stays. */
  function EditPatch(saved: Receipt): (p: ReceiptPatch)
    ensures p.imageUri.None? <==> saved.imageUri == []
    ensures p.imageUri.Some? ==> p.imageUri.value == saved.imageUri
    ensures p == FullPatch(saved).(imageUri := p.imageUri)
  {
    FullPatch(saved).(imageUri := if saved.imageUri == [] then None else Some(saved.imageUri))
  }

  /** With that update the edited receipt takes every field of the form,
      keeps its photo when the route carries none, and so is attached at
      submission exactly as before. */
  lemma EditKeepsImage(form: ReceiptForm, route: RouteParams, idClock: nat, timestamp: int,
                       st: SessionModel.Snapshot, k: nat, copyFailures: set<nat>)
    requires |form.date| == 8
    requires route.editMode && route.receiptId != []
    requires st.current.Some? && k < |st.current.value.receipts|
    requires st.current.value.receipts[k].id == route.receiptId
    ensures var saved := form.ReceiptData(route, idClock, timestamp);
            var before := st.current.value.receipts[k];
            var after := SessionModel.UpdateReceipt(st, route.receiptId, EditPatch(saved)).after.current.value.receipts;
            && k < |after|
            && after[k] == saved.(imageUri := if route.imageUri == [] then before.imageUri else route.imageUri)
            && (route.imageUri == [] ==>
                  (Submission.Staged(after[k], k, copyFailures) <==> Submission.Staged(before, k, copyFailures)))
  {
    var saved := form.ReceiptData(route, idClock, timestamp);
    SessionModel.UpdateReceiptMerges(st, route.receiptId, EditPatch(saved));
  }
}
