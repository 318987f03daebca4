/** The fixed catalogue of expense categories and their GL codes. */
module Categories {
  import opened Results
  import opened ReceiptTypes
  import Text
  import Seqs

  /** The GL code value that is used verbatim, never suffixed with a location. */
  const MiscExpense := "Misc. Expense"

  const Catalogue: seq<Category> := [
    Category("1", "Gasoline", "6190-01"),
    Category("2", "Parking", "6160-01"),
    Category("3", "Misc. Auto", "6150-01"),
    Category("4", "Customer Relations", "6090-01"),
    Category("5", "Misc. Expense", MiscExpense),
    Category("6", "Sampling", "6080-05"),
    Category("7", "Travel/Lodging/Airfare", "6830-01"),
    Category("8", "Sales Training", "6250-01"),
    Category("9", "POS", "6080-04"),
    Category("10", "Office Supplies", "6570-01"),
    Category("11", "Computers", "6600-01"),
    Category("12", "Brand Promotion", "6080-05")
  ]

  /** `cats.find(c => c.name === name)`: the first entry with that name. */
  function FindByName(cats: seq<Category>, name: string): (r: Option<Category>)
    ensures r.Some? ==> r.value in cats && r.value.name == name
    ensures r.None? <==> forall i :: 0 <= i < |cats| ==> cats[i].name != name
    ensures r.Some? ==>
              exists i :: 0 <= i < |cats| && cats[i] == r.value && forall j :: 0 <= j < i ==> cats[j].name != name
  {
    Seqs.Find(cats, (c: Category) => c.name == name)
  }

  /** The shape `dddd-dd` of an ordinary GL code. */
  predicate IsAccountCode(code: string) {
    |code| == 7 && code[4] == '-'
    && Text.AllDigits(code[..4]) && Text.AllDigits(code[5..])
  }

  /** The catalogue has twelve entries whose ids are "1" to "12" in order. */
  lemma CatalogueIds()
    ensures |Catalogue| == 12
    ensures forall i :: 0 <= i < |Catalogue| ==> Catalogue[i].id == Text.DecimalString(i + 1)
  {
    forall i | 0 <= i < |Catalogue|
      ensures Catalogue[i].id == Text.DecimalString(i + 1)
    {
      Text.DecimalStringLength(i + 1);
      assert i + 1 >= 10 ==> Text.DecimalString(i + 1) == Text.DecimalString(1) + [Text.DigitChar((i + 1) % 10)];
    }
  }

  /** Ids and names are pairwise distinct, so a name lookup has at most one
      answer and the lookup returns exactly the entry with that name. */
  lemma CatalogueNamesDistinct(name: string)
    ensures forall i, j :: 0 <= i < j < |Catalogue| ==> Catalogue[i].name != Catalogue[j].name
    ensures forall i, j :: 0 <= i < j < |Catalogue| ==> Catalogue[i].id != Catalogue[j].id
    ensures forall c :: c in Catalogue && c.name == name ==> FindByName(Catalogue, name) == Some(c)
  {
    forall i, j | 0 <= i < j < |Catalogue|
      ensures Catalogue[i].name != Catalogue[j].name && Catalogue[i].id != Catalogue[j].id
    {
      assert Catalogue[i].name[..2] != Catalogue[j].name[..2] || |Catalogue[i].name| != |Catalogue[j].name|
          || Catalogue[i].name[2..] != Catalogue[j].name[2..];
    }
  }

  /** "Misc. Expense" is the only entry whose GL code is the sentinel; every
      other code has the shape `dddd-dd`. */
  lemma CatalogueCodes()
    ensures forall c :: c in Catalogue ==> (c.glCode == MiscExpense <==> c.name == "Misc. Expense")
    ensures forall c :: c in Catalogue && c.glCode != MiscExpense ==> IsAccountCode(c.glCode)
  {
    forall i | 0 <= i < |Catalogue|
      ensures Catalogue[i].glCode == MiscExpense <==> Catalogue[i].name == "Misc. Expense"
      ensures Catalogue[i].glCode != MiscExpense ==> IsAccountCode(Catalogue[i].glCode)
    {
      var code := Catalogue[i].glCode;
      if i == 4 {
        assert code == MiscExpense;
      } else {
        assert |code| == 7 && |MiscExpense| == 13;
        assert IsAccountCode(code);
      }
    }
  }

  /** GL codes do not identify a category: Sampling and Brand Promotion share one. */
  lemma SharedGlCode()
    ensures exists i, j :: 0 <= i < j < |Catalogue| && Catalogue[i].glCode == Catalogue[j].glCode
  {
    assert Catalogue[5].glCode == Catalogue[11].glCode;
  }
}
