/**
 The JSON codec that carries bigints through storage: a bigint becomes a record holding its
 digits under a reserved key, and reading turns such records back. JSON text is taken as the
 tree it denotes, so encoding is the replacer's walk and decoding the reviver's.
 */
module BigintCodec {
  import opened Wrappers
  import opened Digits

  const BIGINT_TAG := "$ovrflo/bigint"

  datatype Json =
    | Null
    | Bool(b: bool)
    | Number(n: real)
    | Text(s: string)
    | Bigint(i: int)
    | List(items: Items)
    | Record(fields: Fields)

  datatype Items = NoItem | Item(head: Json, tail: Items)

  datatype Fields = NoField | Field(key: string, value: Json, rest: Fields)

  /** `toString` of any bigint. */
  function PrintInt(i: int): string
  {
    if i < 0 then "-" + Print(-i) else Print(i)
  }

  /** An optional minus and a canonical digit string. */
  predicate IsIntText(s: string)
  {
    Canonical(if s != [] && s[0] == '-' then s[1..] else s)
  }

  function ReadInt(s: string): int
    requires IsIntText(s)
  {
    if s[0] == '-' then -(Read(s[1..]) as int) else Read(s)
  }

  /** The value bound to a key: the first field of that name. */
  function At(fields: Fields, key: string): Option<Json>
  {
    match fields
    case NoField => None
    case Field(k, v, rest) => if k == key then Some(v) else At(rest, key)
  }

  predicate Tagged(fields: Fields)
  {
    At(fields, BIGINT_TAG).Some? && At(fields, BIGINT_TAG).value.Text?
  }

  // ---------------------------------------------------------------------------
  // Encoding and decoding
  // ---------------------------------------------------------------------------

  function Encode(v: Json): Json
  {
    match v
    case Bigint(i) => Record(Field(BIGINT_TAG, Text(PrintInt(i)), NoField))
    case List(items) => List(EncodeItems(items))
    case Record(fields) => Record(EncodeFields(fields))
    case _ => v
  }

  function EncodeItems(items: Items): Items
  {
    match items
    case NoItem => NoItem
    case Item(head, tail) => Item(Encode(head), EncodeItems(tail))
  }

  function EncodeFields(fields: Fields): Fields
  {
    match fields
    case NoField => NoField
    case Field(k, v, rest) => Field(k, Encode(v), EncodeFields(rest))
  }

  /** The reviver on one record whose members are already revived. */
  function Revive(fields: Fields): Option<Json>
  {
    if Tagged(fields) then
      var digits := At(fields, BIGINT_TAG).value.s;
      if IsIntText(digits) then Some(Bigint(ReadInt(digits))) else None
    else
      Some(Record(fields))
  }

  /** Members first, then the value itself; nothing when a tag holds no number. */
  function Decode(v: Json): Option<Json>
  {
    match v
    case List(items) =>
      var r := DecodeItems(items);
      if r.None? then None else Some(List(r.value))
    case Record(fields) =>
      var r := DecodeFields(fields);
      if r.None? then None else Revive(r.value)
    case _ => Some(v)
  }

  function DecodeItems(items: Items): Option<Items>
  {
    match items
    case NoItem => Some(NoItem)
    case Item(head, tail) =>
      var h, t := Decode(head), DecodeItems(tail);
      if h.None? || t.None? then None else Some(Item(h.value, t.value))
  }

  function DecodeFields(fields: Fields): Option<Fields>
  {
    match fields
    case NoField => Some(NoField)
    case Field(k, v, rest) =>
      var h, t := Decode(v), DecodeFields(rest);
      if h.None? || t.None? then None else Some(Field(k, h.value, t.value))
  }

  // ---------------------------------------------------------------------------
  // The round trip
  // ---------------------------------------------------------------------------

  /** No record, at any depth, binds the reserved key to a string. */
  predicate TagFree(v: Json)
  {
    match v
    case List(items) => TagFreeItems(items)
    case Record(fields) => TagFreeFields(fields) && !Tagged(fields)
    case _ => true
  }

  predicate TagFreeItems(items: Items)
  {
    items.NoItem? || (TagFree(items.head) && TagFreeItems(items.tail))
  }

  predicate TagFreeFields(fields: Fields)
  {
    fields.NoField? || (TagFree(fields.value) && TagFreeFields(fields.rest))
  }

  lemma IntTextRoundTrip(i: int)
    ensures IsIntText(PrintInt(i)) && ReadInt(PrintInt(i)) == i
  {
    var n := if i < 0 then -i else i;
    PrintCanonical(n);
    ReadPrint(n);
    if i < 0 {
      assert PrintInt(i)[1..] == Print(n);
    } else {
      assert IsDigit(Print(n)[0]);
    }
  }

  /** A minus exactly for negative numbers, then the digits of the magnitude. */
  lemma IntTextIs(i: int)
    ensures (PrintInt(i)[0] == '-') <==> i < 0
    ensures var digits := if i < 0 then PrintInt(i)[1..] else PrintInt(i);
      Canonical(digits) && Read(digits) == if i < 0 then -i else i
  {
    var n := if i < 0 then -i else i;
    PrintCanonical(n);
    ReadPrint(n);
    if i < 0 {
      assert PrintInt(i)[1..] == Print(n);
    } else {
      assert IsDigit(Print(n)[0]);
    }
  }

  /** No bigint anywhere: what JSON text can carry. */
  predicate Plain(v: Json)
  {
    match v
    case Bigint(_) => false
    case List(items) => PlainItems(items)
    case Record(fields) => PlainFields(fields)
    case _ => true
  }

  predicate PlainItems(items: Items)
  {
    items.NoItem? || (Plain(items.head) && PlainItems(items.tail))
  }

  predicate PlainFields(fields: Fields)
  {
    fields.NoField? || (Plain(fields.value) && PlainFields(fields.rest))
  }

  /** Encoding always gives something JSON text can carry, and leaves alone what already was. */
  lemma {:induction false} EncodedIsPlain(v: Json)
    ensures Plain(Encode(v)) && (Plain(v) ==> Encode(v) == v)
  {
    match v {
      case Bigint(i) =>
        var text := Text(PrintInt(i));
        assert Plain(text) && PlainFields(NoField);
        assert PlainFields(Field(BIGINT_TAG, text, NoField));
      case List(items) => EncodedItemsPlain(items);
      case Record(fields) => EncodedFieldsPlain(fields);
      case _ =>
    }
  }

  lemma {:induction false} EncodedItemsPlain(items: Items)
    ensures PlainItems(EncodeItems(items)) && (PlainItems(items) ==> EncodeItems(items) == items)
  {
    if items.Item? {
      EncodedIsPlain(items.head);
      EncodedItemsPlain(items.tail);
    }
  }

  lemma {:induction false} EncodedFieldsPlain(fields: Fields)
    ensures PlainFields(EncodeFields(fields)) && (PlainFields(fields) ==> EncodeFields(fields) == fields)
  {
    if fields.Field? {
      EncodedIsPlain(fields.value);
      EncodedFieldsPlain(fields.rest);
    }
  }

  /**
   Whatever is stored comes back unchanged exactly when no record in it, at any depth, binds the
   reserved key to a string; a bigint under that key is fine.
   */
  lemma {:induction false} RoundTrip(v: Json)
    ensures Decode(Encode(v)) == Some(v) <==> TagFree(v)
  {
    match v {
      case Bigint(i) =>
        var text := Text(PrintInt(i));
        var fields := Field(BIGINT_TAG, text, NoField);
        assert Decode(text) == Some(text) && DecodeFields(NoField) == Some(NoField);
        assert DecodeFields(fields) == Some(fields) && At(fields, BIGINT_TAG) == Some(text);
        IntTextRoundTrip(i);
      case List(items) => ItemsRoundTrip(items);
      case Record(fields) => FieldsRoundTrip(fields);
      case _ =>
    }
  }

  /**
   The failing family is inhabited: a record that says "7" under the reserved key comes back as
   the bigint 7, and one that says something else there is refused.
   */
  lemma TaggedRecordNotRestored()
    ensures var digits := Record(Field(BIGINT_TAG, Text("7"), NoField));
      Decode(Encode(digits)) == Some(Bigint(7))
    ensures var words := Record(Field(BIGINT_TAG, Text("seven"), NoField));
      Decode(Encode(words)) == None
  {
    var seven, word := Text("7"), Text("seven");
    var digits, words := Field(BIGINT_TAG, seven, NoField), Field(BIGINT_TAG, word, NoField);
    assert EncodeFields(NoField) == NoField && DecodeFields(NoField) == Some(NoField);
    assert EncodeFields(digits) == digits && EncodeFields(words) == words;
    assert DecodeFields(digits) == Some(digits) && DecodeFields(words) == Some(words);
    assert At(digits, BIGINT_TAG) == Some(seven) && At(words, BIGINT_TAG) == Some(word);
    assert Print(7) == "7";
    IntTextRoundTrip(7);
    assert word.s[0] == 's' && !IsDigit('s');
  }

  lemma {:induction false} ItemsRoundTrip(items: Items)
    ensures DecodeItems(EncodeItems(items)) == Some(items) <==> TagFreeItems(items)
  {
    if items.Item? {
      RoundTrip(items.head);
      ItemsRoundTrip(items.tail);
    }
  }

  lemma {:induction false} FieldsRoundTrip(fields: Fields)
    ensures DecodeFields(EncodeFields(fields)) == Some(fields) <==> TagFreeFields(fields)
  {
    if fields.Field? {
      RoundTrip(fields.value);
      FieldsRoundTrip(fields.rest);
    }
  }
}
