/** The key/value storage adapter (`useStorage`): guards on key and value
    size before every write and read; both key and value are stored trimmed. */
module Storage {
  import opened Results
  import Text

  const MaxKeyLength := 100
  const MaxValueLength := 10000

  /** A key is usable when it is not blank and has at most 100 characters
      (the length is taken before trimming). */
  predicate KeyOk(key: string) {
    Text.Trim(key) != [] && |key| <= MaxKeyLength
  }

  /** A value is storable when it is not blank and has at most 10,000 characters. */
  predicate ValueOk(value: string) {
    Text.Trim(value) != [] && |value| <= MaxValueLength
  }

  /** The contents after `setItem(key, value)`. */
  function Put(items: map<string, string>, key: string, value: string): (r: map<string, string>)
    ensures forall k :: k in items && k != Text.Trim(key) ==> k in r && r[k] == items[k]
    ensures forall k :: k in r ==> k in items || k == Text.Trim(key)
  {
    if KeyOk(key) && ValueOk(value) then items[Text.Trim(key) := Text.Trim(value)] else items
  }

  /** The answer of `getItem(key)`: `None` stands for `null`. */
  function Get(items: map<string, string>, key: string): (r: Option<string>)
    ensures r.Some? <==> KeyOk(key) && Text.Trim(key) in items
    ensures r.Some? ==> r.value == items[Text.Trim(key)]
  {
    if KeyOk(key) && Text.Trim(key) in items then Some(items[Text.Trim(key)]) else None
  }

  /** A write is accepted exactly when neither the key nor the value is
      blank or too long; a refused write stores nothing. */
  lemma PutRejects(items: map<string, string>, key: string, value: string)
    ensures (KeyOk(key) && ValueOk(value)) <==>
              !(Text.AllWhitespace(key) || |key| > MaxKeyLength || Text.AllWhitespace(value) || |value| > MaxValueLength)
    ensures !(KeyOk(key) && ValueOk(value)) ==> Put(items, key, value) == items
    ensures KeyOk(key) && ValueOk(value) ==> Put(items, key, value)[Text.Trim(key)] == Text.Trim(value)
  {
    Text.TrimEmptyIff(key);
    Text.TrimEmptyIff(value);
  }

  /** A read with a blank or over-long key answers `null` whatever is stored. */
  lemma GetRejects(items: map<string, string>, key: string)
    ensures Text.AllWhitespace(key) || |key| > MaxKeyLength ==> Get(items, key) == None
  {
    Text.TrimEmptyIff(key);
  }

  /** Reading back an accepted write gives the trimmed value; a write under
      another key does not disturb a read. */
  lemma GetAfterPut(items: map<string, string>, key: string, value: string, other: string)
    ensures KeyOk(key) && ValueOk(value) ==> Get(Put(items, key, value), key) == Some(Text.Trim(value))
    ensures Text.Trim(other) != Text.Trim(key) ==> Get(Put(items, key, value), other) == Get(items, other)
  {
  }

  /** The persistent store; `items` is what the device holds. Failures of the
      native backend are not part of this model. */
  class KeyValueStore {
    var items: map<string, string>

    constructor(initial: map<string, string>)
      ensures items == initial
    {
      items := initial;
    }

    method SetItem(key: string, value: string)
      modifies this
      ensures items == Put(old(items), key, value)
    {
      if Text.Trim(key) == [] || |key| > MaxKeyLength {
        return;
      }
      if Text.Trim(value) == [] || |value| > MaxValueLength {
        return;
      }
      items := items[Text.Trim(key) := Text.Trim(value)];
    }

    method GetItem(key: string) returns (r: Option<string>)
      ensures r == Get(items, key)
      ensures r.Some? ==> KeyOk(key)
    {
      if Text.Trim(key) == [] || |key| > MaxKeyLength {
        return None;
      }
      var k := Text.Trim(key);
      r := if k in items then Some(items[k]) else None;
    }
  }
}
