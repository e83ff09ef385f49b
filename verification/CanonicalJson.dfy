/** `stableJson`, canonical and decodable. */
module CanonicalJson {
  // Planning receipts are fingerprinted over this printing. That it determines the
  // value is shown with an independent decoder after section 4 of RFC 8259.

  import opened JsText
  import opened JsString = JsonString
  import opened Decimal
  import Lines
  import opened Options

  datatype Field = Field(key: Text, value: Value)

  /** A JavaScript value. The fields of an object are listed in insertion order. */
  datatype Value =
    | Null
    | Bool(b: bool)
    | Num(n: int)
    | Str(s: Text)
    | Arr(items: seq<Value>)
    | Obj(fields: seq<Field>)
    | Undefined

  // ---- Objects ----

  function Keys(fields: seq<Field>): (keys: seq<Text>)
    ensures |keys| == |fields|
    ensures forall i :: 0 <= i < |fields| ==> keys[i] == fields[i].key
  {
    seq(|fields|, i requires 0 <= i < |fields| => fields[i].key)
  }

  predicate Distinct(keys: seq<Text>)
  {
    forall i, j :: 0 <= i < j < |keys| ==> keys[i] != keys[j]
  }

  /** `record[key]` for a key of the record. */
  function Lookup(fields: seq<Field>, key: Text): (v: Value)
    requires key in Keys(fields)
    ensures exists i :: 0 <= i < |fields| && fields[i].key == key && fields[i].value == v
  {
    if fields[0].key == key then fields[0].value
    else
      assert forall i :: 0 < i < |fields| ==> fields[i] == fields[1..][i - 1];
      Lookup(fields[1..], key)
  }

  /** What every JavaScript object satisfies: no key twice. */
  ghost predicate Valid(v: Value)
  {
    match v
    case Arr(items) => forall i :: 0 <= i < |items| ==> Valid(items[i])
    case Obj(fields) =>
      && Distinct(Keys(fields))
      && forall i :: 0 <= i < |fields| ==> Valid(fields[i].value)
    case _ => true
  }

  /** No `undefined` anywhere. */
  ghost predicate Serializable(v: Value)
  {
    match v
    case Undefined => false
    case Arr(items) => forall i :: 0 <= i < |items| ==> Serializable(items[i])
    case Obj(fields) => forall i :: 0 <= i < |fields| ==> Serializable(fields[i].value)
    case _ => true
  }

  // ---- Key order: `sort()` compares code units ----

  predicate Less(a: Text, b: Text)
  {
    if b == [] then false
    else if a == [] then true
    else a[0] < b[0] || (a[0] == b[0] && Less(a[1..], b[1..]))
  }

  lemma {:induction false} LessTrichotomy(a: Text, b: Text)
    ensures Less(a, b) || a == b || Less(b, a)
    ensures !(Less(a, b) && Less(b, a))
    ensures !Less(a, a)
    decreases |a|
  {
    if a != [] {
      LessTrichotomy(a[1..], a[1..]);
      if b != [] && a[0] == b[0] {
        LessTrichotomy(a[1..], b[1..]);
        if a[1..] == b[1..] {
          assert a == [a[0]] + a[1..] == [b[0]] + b[1..] == b;
        }
      }
    }
  }

  lemma {:induction false} LessTransitive(a: Text, b: Text, c: Text)
    requires Less(a, b) && Less(b, c)
    ensures Less(a, c)
    decreases |a|
  {
    if a != [] && a[0] == b[0] && b[0] == c[0] {
      LessTransitive(a[1..], b[1..], c[1..]);
    }
  }

  predicate Sorted(keys: seq<Text>)
  {
    forall i, j :: 0 <= i < j < |keys| ==> Less(keys[i], keys[j])
  }

  function Insert(key: Text, keys: seq<Text>): seq<Text>
  {
    if keys == [] then [key]
    else if Less(keys[0], key) then [keys[0]] + Insert(key, keys[1..])
    else [key] + keys
  }

  function Sort(keys: seq<Text>): seq<Text>
  {
    if keys == [] then [] else Insert(keys[0], Sort(keys[1..]))
  }

  lemma {:induction false} InsertMembers(key: Text, keys: seq<Text>)
    ensures forall k :: k in Insert(key, keys) <==> k == key || k in keys
  {
    if keys != [] && Less(keys[0], key) {
      InsertMembers(key, keys[1..]);
      assert keys == [keys[0]] + keys[1..];
    }
  }

  lemma {:induction false} InsertSorted(key: Text, keys: seq<Text>)
    requires Sorted(keys) && key !in keys
    ensures Sorted(Insert(key, keys))
  {
    if keys != [] {
      LessTrichotomy(keys[0], key);
      if Less(keys[0], key) {
        var tail := Insert(key, keys[1..]);
        InsertSorted(key, keys[1..]);
        InsertMembers(key, keys[1..]);
        forall k | k in tail
          ensures Less(keys[0], k)
        {
        }
      } else {
        forall j | 0 < j < |keys|
          ensures Less(key, keys[j])
        {
          LessTransitive(key, keys[0], keys[j]);
        }
      }
    }
  }

  lemma {:induction false} SortMembers(keys: seq<Text>)
    ensures forall k :: k in Sort(keys) <==> k in keys
  {
    if keys != [] {
      SortMembers(keys[1..]);
      InsertMembers(keys[0], Sort(keys[1..]));
      assert keys == [keys[0]] + keys[1..];
    }
  }

  lemma {:induction false} SortSorts(keys: seq<Text>)
    requires Distinct(keys)
    ensures Sorted(Sort(keys))
  {
    if keys != [] {
      SortSorts(keys[1..]);
      SortMembers(keys[1..]);
      InsertSorted(keys[0], Sort(keys[1..]));
    }
  }

  /** Every correct sort gives the same list. */
  lemma {:induction false} SortedUnique(a: seq<Text>, b: seq<Text>)
    requires Sorted(a) && Sorted(b)
    requires forall k :: k in a <==> k in b
    ensures a == b
    decreases |a|
  {
    if a == [] {
      assert forall i :: 0 <= i < |b| ==> b[i] in b;
    } else {
      assert a[0] in a;
      var j :| 0 <= j < |b| && b[j] == a[0];
      assert b[0] in b;
      var i :| 0 <= i < |a| && a[i] == b[0];
      LessTrichotomy(a[0], b[0]);
      assert a[0] == b[0];
      TailMembers(a);
      TailMembers(b);
      SortedUnique(a[1..], b[1..]);
    }
  }

  lemma TailMembers(a: seq<Text>)
    requires Sorted(a) && a != []
    ensures Sorted(a[1..])
    ensures forall k :: k in a[1..] <==> k in a && k != a[0]
  {
    LessTrichotomy(a[0], a[0]);
    forall k | k in a && k != a[0]
      ensures k in a[1..]
    {
      var i :| 0 <= i < |a| && a[i] == k;
      assert a[1..][i - 1] == k;
    }
  }

  // ---- stableJson ----

  const NULL_TEXT: Text := [0x6E, 0x75, 0x6C, 0x6C]
  const TRUE_TEXT: Text := [0x74, 0x72, 0x75, 0x65]
  const FALSE_TEXT: Text := [0x66, 0x61, 0x6C, 0x73, 0x65]
  const COMMA: Unit := 0x2C
  const COLON: Unit := 0x3A
  const MINUS: Unit := 0x2D
  const OPEN_BRACKET: Unit := 0x5B
  const CLOSE_BRACKET: Unit := 0x5D
  const OPEN_BRACE: Unit := 0x7B
  const CLOSE_BRACE: Unit := 0x7D

  function IntText(n: int): Text
  {
    if n < 0 then [MINUS] + Digits(-n) else Digits(n)
  }

  /** None where the source throws on an unserialisable value. */
  function StableJson(v: Value): Option<Text>
    decreases v, 1
  {
    match v
    case Null => Some(NULL_TEXT)
    case Bool(b) => Some(if b then TRUE_TEXT else FALSE_TEXT)
    case Num(n) => Some(IntText(n))
    case Str(s) => Some(Quote(s))
    case Arr(items) =>
      var body :- ItemsJson(items);
      Some([OPEN_BRACKET] + body + [CLOSE_BRACKET])
    case Obj(fields) =>
      SortMembers(Keys(fields));
      var body :- FieldsJson(v, Sort(Keys(fields)));
      Some([OPEN_BRACE] + body + [CLOSE_BRACE])
    case Undefined => None
  }

  /** `items.map(stableJson).join(",")` */
  function ItemsJson(items: seq<Value>): Option<Text>
    decreases items, 0
  {
    if items == [] then Some([])
    else
      var first :- StableJson(items[0]);
      var others :- ItemsJson(items[1..]);
      Some(if |items| == 1 then first else first + [COMMA] + others)
  }

  /** `keys.map(key => JSON.stringify(key) + ":" + stableJson(record[key])).join(",")` */
  function FieldsJson(record: Value, keys: seq<Text>): Option<Text>
    requires record.Obj? && forall k :: k in keys ==> k in Keys(record.fields)
    decreases record, 0, |keys|
  {
    if keys == [] then Some([])
    else
      var value :- StableJson(Lookup(record.fields, keys[0]));
      var others :- FieldsJson(record, keys[1..]);
      var first := Quote(keys[0]) + [COLON] + value;
      Some(if |keys| == 1 then first else first + [COMMA] + others)
  }

  // ---- What the text looks like ----

  /** Literals and numbers are written as JSON writes them. */
  lemma LiteralTexts(b: bool, n: nat)
    ensures StableJson(Null) == Some(Ascii("null"))
    ensures StableJson(Bool(b)) == Some(Ascii(if b then "true" else "false"))
    ensures StableJson(Num(n)) == Some(Digits(n))
    ensures n > 0 ==> StableJson(Num(0 - n)) == Some(Ascii("-") + Digits(n))
  {
    hide Digits;
    assert Ascii("null") == NULL_TEXT && Ascii("true") == TRUE_TEXT && Ascii("false") == FALSE_TEXT;
    assert Ascii("-") == [MINUS];
  }

  lemma Punctuation()
    ensures Ascii(",") == [COMMA] && Ascii(":") == [COLON]
    ensures Ascii("[") == [OPEN_BRACKET] && Ascii("]") == [CLOSE_BRACKET]
    ensures Ascii("{") == [OPEN_BRACE] && Ascii("}") == [CLOSE_BRACE]
  {
  }

  /** An array is its items in order, separated by commas, without spaces. */
  lemma ArrayText(items: seq<Value>, texts: seq<Text>)
    requires |texts| == |items| && forall i :: 0 <= i < |items| ==> StableJson(items[i]) == Some(texts[i])
    ensures StableJson(Arr(items)) == Some(Ascii("[") + Lines.Join(texts, Ascii(",")) + Ascii("]"))
  {
    hide Lines.Join, ItemsJson;
    ItemsText(items, texts);
    Punctuation();
  }

  lemma {:induction false} ItemsText(items: seq<Value>, texts: seq<Text>)
    requires |texts| == |items| && forall i :: 0 <= i < |items| ==> StableJson(items[i]) == Some(texts[i])
    ensures ItemsJson(items) == Some(Lines.Join(texts, Ascii(",")))
    decreases |items|
  {
    hide StableJson;
    if items != [] {
      assert forall i :: 0 <= i < |items[1..]| ==> items[1..][i] == items[i + 1] && texts[1..][i] == texts[i + 1];
      ItemsText(items[1..], texts[1..]);
      Punctuation();
    }
  }

  /** `text` shows the field of `key`: key and value separated by a colon. */
  ghost predicate ShowsField(v: Value, key: Text, text: Text)
    requires v.Obj? && key in Keys(v.fields)
  {
    StableJson(Lookup(v.fields, key)).Some? && text == Quote(key) + Ascii(":") + StableJson(Lookup(v.fields, key)).value
  }

  /** An object is its fields in the order of their keys. */
  lemma ObjectText(v: Value, keys: seq<Text>, texts: seq<Text>)
    requires Valid(v) && v.Obj? && Sorted(keys) && |texts| == |keys|
    requires forall k :: k in keys <==> k in Keys(v.fields)
    requires forall i :: 0 <= i < |keys| ==> ShowsField(v, keys[i], texts[i])
    ensures StableJson(v) == Some(Ascii("{") + Lines.Join(texts, Ascii(",")) + Ascii("}"))
  {
    hide ShowsField, Sorted, Sort, Lines.Join, FieldsJson, Lookup;
    SortSorts(Keys(v.fields));
    SortMembers(Keys(v.fields));
    SortedUnique(keys, Sort(Keys(v.fields)));
    FieldsText(v, keys, texts);
    Punctuation();
  }

  lemma {:induction false} FieldsText(v: Value, keys: seq<Text>, texts: seq<Text>)
    requires v.Obj? && |texts| == |keys| && forall k :: k in keys ==> k in Keys(v.fields)
    requires forall i :: 0 <= i < |keys| ==> ShowsField(v, keys[i], texts[i])
    ensures FieldsJson(v, keys) == Some(Lines.Join(texts, Ascii(",")))
    decreases |keys|
  {
    hide Lookup, Quote, StableJson, ShowsField;
    if keys != [] {
      assert keys[0] in keys && forall k :: k in keys[1..] ==> k in keys;
      forall i | 0 <= i < |keys[1..]|
        ensures keys[1..][i] in Keys(v.fields) && ShowsField(v, keys[1..][i], texts[1..][i])
      {
        assert keys[1..][i] == keys[i + 1] && texts[1..][i] == texts[i + 1];
      }
      FieldsText(v, keys[1..], texts[1..]);
      FirstField(v, keys[0], texts[0]);
      Punctuation();
    }
  }

  lemma FirstField(v: Value, key: Text, text: Text)
    requires v.Obj? && key in Keys(v.fields) && ShowsField(v, key, text)
    ensures StableJson(Lookup(v.fields, key)).Some?
    ensures text == Quote(key) + [COLON] + StableJson(Lookup(v.fields, key)).value
  {
    hide Lookup, Quote, StableJson;
    Punctuation();
  }

  // ---- The decoder ----

  function Expect(word: Text, v: Value, t: Text): (r: Option<(Value, Text)>)
    requires word != []
    ensures r.Some? ==> |r.value.1| < |t|
  {
    if word <= t then Some((v, t[|word|..])) else None
  }

  function ParseNumber(t: Text): (r: Option<(Value, Text)>)
    ensures r.Some? ==> |r.value.1| < |t|
  {
    if t != [] && t[0] == MINUS then
      var k := DigitRun(t[1..]);
      if k == 0 then None else Some((Num(0 - NumberOf(t[1..][..k])), t[1..][k..]))
    else
      var k := DigitRun(t);
      if k == 0 then None else Some((Num(NumberOf(t[..k])), t[k..]))
  }

  function ParseValue(t: Text): (r: Option<(Value, Text)>)
    ensures r.Some? ==> |r.value.1| < |t|
    decreases |t|, 0
  {
    if t == [] then None
    else if t[0] == NULL_TEXT[0] then Expect(NULL_TEXT, Null, t)
    else if t[0] == TRUE_TEXT[0] then Expect(TRUE_TEXT, Bool(true), t)
    else if t[0] == FALSE_TEXT[0] then Expect(FALSE_TEXT, Bool(false), t)
    else if t[0] == QUOTE then
      var (s, rest) :- ParseChars(t[1..]);
      Some((Str(s), rest))
    else if t[0] == OPEN_BRACKET then ParseArray(t[1..])
    else if t[0] == OPEN_BRACE then ParseObject(t[1..])
    else ParseNumber(t)
  }

  function ParseArray(t: Text): (r: Option<(Value, Text)>)
    ensures r.Some? ==> |r.value.1| < |t|
    decreases |t|, 2
  {
    if t != [] && t[0] == CLOSE_BRACKET then Some((Arr([]), t[1..]))
    else
      var (items, rest) :- ParseItems(t);
      Some((Arr(items), rest))
  }

  function ParseObject(t: Text): (r: Option<(Value, Text)>)
    ensures r.Some? ==> |r.value.1| < |t|
    decreases |t|, 2
  {
    if t != [] && t[0] == CLOSE_BRACE then Some((Obj([]), t[1..]))
    else
      var (fields, rest) :- ParseFields(t);
      Some((Obj(fields), rest))
  }

  function ParseItems(t: Text): (r: Option<(seq<Value>, Text)>)
    ensures r.Some? ==> |r.value.1| < |t|
    decreases |t|, 1
  {
    var (v, rest) :- ParseValue(t);
    if rest == [] then None
    else if rest[0] == CLOSE_BRACKET then Some(([v], rest[1..]))
    else if rest[0] == COMMA then
      var (vs, rest') :- ParseItems(rest[1..]);
      Some(([v] + vs, rest'))
    else None
  }

  function ParseFields(t: Text): (r: Option<(seq<Field>, Text)>)
    ensures r.Some? ==> |r.value.1| < |t|
    decreases |t|, 1
  {
    if t == [] || t[0] != QUOTE then None
    else
      var (key, afterKey) :- ParseChars(t[1..]);
      if afterKey == [] || afterKey[0] != COLON then None
      else
        var (v, rest) :- ParseValue(afterKey[1..]);
        if rest == [] then None
        else if rest[0] == CLOSE_BRACE then Some(([Field(key, v)], rest[1..]))
        else if rest[0] == COMMA then
          var (fields, rest') :- ParseFields(rest[1..]);
          Some(([Field(key, v)] + fields, rest'))
        else None
  }

  // ---- The decoder undoes stableJson, up to key order ----

  /** `v` with the keys of every object sorted. */
  function Canon(v: Value): Value
    decreases v, 1
  {
    match v
    case Arr(items) => Arr(CanonItems(items))
    case Obj(fields) =>
      SortMembers(Keys(fields));
      Obj(CanonFields(v, Sort(Keys(fields))))
    case _ => v
  }

  function CanonItems(items: seq<Value>): seq<Value>
    decreases items, 0
  {
    if items == [] then [] else [Canon(items[0])] + CanonItems(items[1..])
  }

  function CanonFields(record: Value, keys: seq<Text>): seq<Field>
    requires record.Obj? && forall k :: k in keys ==> k in Keys(record.fields)
    decreases record, 0, |keys|
  {
    if keys == [] then []
    else [Field(keys[0], Canon(Lookup(record.fields, keys[0])))] + CanonFields(record, keys[1..])
  }

  /** A text that reads back as `v` wherever no digit follows it. */
  ghost predicate Prints(text: Text, v: Value)
  {
    && text != []
    && text[0] != CLOSE_BRACKET && text[0] != CLOSE_BRACE
    && forall rest :: EndsRun(rest) ==> ParseValue(text + rest) == Some((v, rest))
  }

  lemma WordPrints(word: Text, v: Value)
    requires (word == NULL_TEXT && v == Null) || (word == TRUE_TEXT && v == Bool(true))
          || (word == FALSE_TEXT && v == Bool(false))
    ensures Prints(word, v)
  {
    forall rest
      ensures ParseValue(word + rest) == Some((v, rest))
    {
      var t := word + rest;
      assert word <= t && t[|word|..] == rest;
    }
  }

  lemma NaturalReads(n: nat, rest: Text)
    requires EndsRun(rest)
    ensures ParseNumber(Digits(n) + rest) == Some((Num(n), rest))
  {
    NumberOfDigits(n);
    DigitRunIs(Digits(n), rest);
  }

  lemma NegativeReads(n: nat, rest: Text)
    requires EndsRun(rest)
    ensures ParseNumber([MINUS] + Digits(n) + rest) == Some((Num(0 - n), rest))
  {
    hide Digits, DigitRun, NumberOf, EndsRun;
    var t := Digits(n) + rest;
    NumberOfDigits(n);
    DigitRunIs(Digits(n), rest);
    assert t[..|Digits(n)|] == Digits(n) && t[|Digits(n)|..] == rest;
    assert [MINUS] + Digits(n) + rest == [MINUS] + t && ([MINUS] + t)[1..] == t;
  }

  lemma NumberPrints(n: int)
    ensures Prints(IntText(n), Num(n))
  {
    var first := IntText(n)[0];
    assert first == MINUS || IsDigit(first);
    forall rest | EndsRun(rest)
      ensures ParseValue(IntText(n) + rest) == Some((Num(n), rest))
    {
      if n < 0 {
        NegativeReads(-n, rest);
      } else {
        NaturalReads(n, rest);
      }
      assert (IntText(n) + rest)[0] == first;
    }
  }

  lemma StringPrints(s: Text)
    ensures Prints(Quote(s), Str(s))
  {
    forall rest
      ensures ParseValue(Quote(s) + rest) == Some((Str(s), rest))
    {
      ParseQuoted(s, rest);
    }
  }

  lemma ParseQuoted(s: Text, rest: Text)
    ensures (Quote(s) + rest)[0] == QUOTE
    ensures ParseChars((Quote(s) + rest)[1..]) == Some((s, rest))
  {
    assert (Quote(s) + rest)[1..] == Escape(s) + ([QUOTE] + rest);
    ParseEscaped(s, rest);
  }

  // Arrays.

  lemma LastItemPrints(text: Text, v: Value, rest: Text)
    requires Prints(text, v)
    ensures ParseItems(text + ([CLOSE_BRACKET] + rest)) == Some(([v], rest))
  {
    var after := [CLOSE_BRACKET] + rest;
    assert ParseValue(text + after) == Some((v, after));
    assert after[1..] == rest;
  }

  lemma FirstItemPrints(text: Text, v: Value, others: Text)
    requires Prints(text, v) && ParseItems(others).Some?
    ensures ParseItems(text + ([COMMA] + others))
         == Some(([v] + ParseItems(others).value.0, ParseItems(others).value.1))
  {
    var after := [COMMA] + others;
    assert ParseValue(text + after) == Some((v, after));
    assert after[1..] == others;
  }

  lemma RegroupItems(text: Text, others: Text, after: Text)
    ensures text + [COMMA] + others + after == text + ([COMMA] + (others + after))
  {
  }

  /** The two ways an element list goes on after its first element. */
  lemma ItemsJsonText(items: seq<Value>, after: Text)
    requires items != [] && ItemsJson(items).Some?
    ensures |items| == 1 ==> ItemsJson(items).value + after == StableJson(items[0]).value + after
    ensures |items| > 1 ==>
      ItemsJson(items).value + after
      == StableJson(items[0]).value + ([COMMA] + (ItemsJson(items[1..]).value + after))
  {
    RegroupItems(StableJson(items[0]).value, ItemsJson(items[1..]).value, after);
  }

  lemma ItemsJsonStarts(items: seq<Value>)
    requires items != [] && ItemsJson(items).Some?
    requires StableJson(items[0]).value != [] && StableJson(items[0]).value[0] != CLOSE_BRACKET
    ensures ItemsJson(items).value != [] && ItemsJson(items).value[0] != CLOSE_BRACKET
  {
  }

  lemma {:induction false} ItemsRoundTrip(items: seq<Value>, rest: Text)
    requires items != [] && ItemsJson(items).Some?
    requires forall i :: 0 <= i < |items| ==> Valid(items[i])
    ensures ParseItems(ItemsJson(items).value + ([CLOSE_BRACKET] + rest)) == Some((CanonItems(items), rest))
    decreases items, 0
  {
    var text, after := StableJson(items[0]).value, [CLOSE_BRACKET] + rest;
    StableJsonPrints(items[0]);
    ItemsJsonText(items, after);
    if |items| == 1 {
      LastItemPrints(text, Canon(items[0]), rest);
      assert CanonItems(items) == [Canon(items[0])];
    } else {
      ItemsRoundTrip(items[1..], rest);
      FirstItemPrints(text, Canon(items[0]), ItemsJson(items[1..]).value + after);
    }
  }

  // Objects.

  lemma KeyThenValuePrints(key: Text, text: Text, v: Value, after: Text)
    requires Prints(text, v) && EndsRun(after)
    ensures var t := Quote(key) + ([COLON] + (text + after));
            && t[0] == QUOTE
            && ParseChars(t[1..]) == Some((key, [COLON] + (text + after)))
            && ParseValue(([COLON] + (text + after))[1..]) == Some((v, after))
  {
    ParseQuoted(key, [COLON] + (text + after));
    assert ([COLON] + (text + after))[1..] == text + after;
  }

  lemma LastFieldPrints(key: Text, text: Text, v: Value, rest: Text)
    requires Prints(text, v)
    ensures ParseFields(Quote(key) + ([COLON] + (text + ([CLOSE_BRACE] + rest)))) == Some(([Field(key, v)], rest))
  {
    var after := [CLOSE_BRACE] + rest;
    KeyThenValuePrints(key, text, v, after);
    assert after[1..] == rest;
  }

  lemma FirstFieldPrints(key: Text, text: Text, v: Value, others: Text)
    requires Prints(text, v) && ParseFields(others).Some?
    ensures ParseFields(Quote(key) + ([COLON] + (text + ([COMMA] + others))))
         == Some(([Field(key, v)] + ParseFields(others).value.0, ParseFields(others).value.1))
  {
    var after := [COMMA] + others;
    KeyThenValuePrints(key, text, v, after);
    assert after[1..] == others;
  }

  lemma Regroup(key: Text, text: Text, others: Text, after: Text)
    ensures key + [COLON] + text + after == key + ([COLON] + (text + after))
    ensures key + [COLON] + text + [COMMA] + others + after
         == key + ([COLON] + (text + ([COMMA] + (others + after))))
  {
  }

  /** The two ways a member list goes on after its first key. */
  lemma FieldsJsonText(record: Value, keys: seq<Text>, after: Text)
    requires record.Obj? && forall k :: k in keys ==> k in Keys(record.fields)
    requires keys != [] && FieldsJson(record, keys).Some?
    ensures |keys| == 1 ==>
      FieldsJson(record, keys).value + after
      == Quote(keys[0]) + ([COLON] + (StableJson(Lookup(record.fields, keys[0])).value + after))
    ensures |keys| > 1 ==>
      FieldsJson(record, keys).value + after
      == Quote(keys[0]) + ([COLON] + (StableJson(Lookup(record.fields, keys[0])).value
                                      + ([COMMA] + (FieldsJson(record, keys[1..]).value + after))))
  {
    Regroup(Quote(keys[0]), StableJson(Lookup(record.fields, keys[0])).value,
            FieldsJson(record, keys[1..]).value, after);
  }

  lemma {:induction false} FieldsRoundTrip(record: Value, keys: seq<Text>, rest: Text)
    requires record.Obj? && Valid(record)
    requires forall k :: k in keys ==> k in Keys(record.fields)
    requires keys != [] && FieldsJson(record, keys).Some?
    ensures ParseFields(FieldsJson(record, keys).value + ([CLOSE_BRACE] + rest))
         == Some((CanonFields(record, keys), rest))
    decreases record, 0, |keys|
  {
    var key, v, after := keys[0], Lookup(record.fields, keys[0]), [CLOSE_BRACE] + rest;
    var text := StableJson(v).value;
    StableJsonPrints(v);
    FieldsJsonText(record, keys, after);
    if |keys| == 1 {
      LastFieldPrints(key, text, Canon(v), rest);
      assert CanonFields(record, keys) == [Field(key, Canon(v))];
    } else {
      FieldsRoundTrip(record, keys[1..], rest);
      FirstFieldPrints(key, text, Canon(v), FieldsJson(record, keys[1..]).value + after);
    }
  }

  lemma FieldsJsonStarts(record: Value, keys: seq<Text>)
    requires record.Obj? && forall k :: k in keys ==> k in Keys(record.fields)
    requires keys != [] && FieldsJson(record, keys).Some?
    ensures FieldsJson(record, keys).value != [] && FieldsJson(record, keys).value[0] == QUOTE
  {
  }

  lemma {:induction false} StableJsonPrints(v: Value)
    requires Valid(v) && StableJson(v).Some?
    ensures Prints(StableJson(v).value, Canon(v))
    decreases v, 3
  {
    match v
    case Null => WordPrints(NULL_TEXT, v);
    case Bool(b) => WordPrints(if b then TRUE_TEXT else FALSE_TEXT, v);
    case Num(n) => NumberPrints(n);
    case Str(s) => StringPrints(s);
    case Arr(items) => ArrayPrints(v);
    case Obj(fields) => ObjectPrints(v);
  }

  lemma Enclosed(open: Unit, body: Text, close: Unit, rest: Text)
    ensures [open] + body + [close] + rest == [open] + (body + ([close] + rest))
    ensures ([open] + (body + ([close] + rest)))[1..] == body + ([close] + rest)
  {
  }

  lemma BodyReads(body: Text, close: Unit, rest: Text)
    requires close == CLOSE_BRACKET || close == CLOSE_BRACE
    ensures body == [] && close == CLOSE_BRACKET ==> ParseArray(body + ([close] + rest)) == Some((Arr([]), rest))
    ensures body == [] && close == CLOSE_BRACE ==> ParseObject(body + ([close] + rest)) == Some((Obj([]), rest))
  {
    if body == [] {
      assert body + ([close] + rest) == [close] + rest;
      assert ([close] + rest)[1..] == rest;
    }
  }

  lemma {:induction false} ArrayPrints(v: Value)
    requires v.Arr? && Valid(v) && StableJson(v).Some?
    ensures Prints(StableJson(v).value, Canon(v))
    decreases v, 2
  {
    var body := ItemsJson(v.items).value;
    forall rest
      ensures ParseValue(StableJson(v).value + rest) == Some((Canon(v), rest))
    {
      Enclosed(OPEN_BRACKET, body, CLOSE_BRACKET, rest);
      ArrayBodyReads(v, rest);
    }
  }

  lemma {:induction false} ArrayBodyReads(v: Value, rest: Text)
    requires v.Arr? && Valid(v) && StableJson(v).Some?
    ensures ParseArray(ItemsJson(v.items).value + ([CLOSE_BRACKET] + rest)) == Some((Canon(v), rest))
    decreases v, 1
  {
    if v.items == [] {
      BodyReads([], CLOSE_BRACKET, rest);
    } else {
      ItemsRoundTrip(v.items, rest);
      StableJsonPrints(v.items[0]);
      ItemsJsonStarts(v.items);
    }
  }

  lemma {:induction false} ObjectPrints(v: Value)
    requires v.Obj? && Valid(v) && StableJson(v).Some?
    ensures Prints(StableJson(v).value, Canon(v))
    decreases v, 2
  {
    SortMembers(Keys(v.fields));
    var body := FieldsJson(v, Sort(Keys(v.fields))).value;
    forall rest
      ensures ParseValue(StableJson(v).value + rest) == Some((Canon(v), rest))
    {
      Enclosed(OPEN_BRACE, body, CLOSE_BRACE, rest);
      ObjectBodyReads(v, body, rest);
    }
  }

  lemma {:induction false} ObjectBodyReads(v: Value, body: Text, rest: Text)
    requires v.Obj? && Valid(v)
    requires forall k :: k in Sort(Keys(v.fields)) ==> k in Keys(v.fields)
    requires FieldsJson(v, Sort(Keys(v.fields))) == Some(body)
    ensures ParseObject(body + ([CLOSE_BRACE] + rest)) == Some((Canon(v), rest))
    decreases v, 1
  {
    var keys := Sort(Keys(v.fields));
    if keys == [] {
      BodyReads([], CLOSE_BRACE, rest);
    } else {
      FieldsRoundTrip(v, keys, rest);
      FieldsJsonStarts(v, keys);
    }
  }

  // ---- Main results ----

  /** `stableJson` throws exactly on values that hold `undefined`. */
  lemma {:induction false} StableJsonTotal(v: Value)
    requires Valid(v)
    ensures StableJson(v).Some? <==> Serializable(v)
    decreases v, 1
  {
    match v
    case Arr(items) => ItemsJsonTotal(items);
    case Obj(fields) =>
      var keys := Keys(fields);
      SortMembers(keys);
      FieldsJsonTotal(v, Sort(keys));
      forall i | 0 <= i < |fields|
        ensures keys[i] in Sort(keys) && Lookup(fields, keys[i]) == fields[i].value
      {
        LookupAt(fields, i);
      }
    case _ =>
  }

  lemma {:induction false} ItemsJsonTotal(items: seq<Value>)
    requires forall i :: 0 <= i < |items| ==> Valid(items[i])
    ensures ItemsJson(items).Some? <==> forall i :: 0 <= i < |items| ==> Serializable(items[i])
    decreases items, 0
  {
    if items != [] {
      StableJsonTotal(items[0]);
      ItemsJsonTotal(items[1..]);
      assert forall i :: 0 < i < |items| ==> items[i] == items[1..][i - 1];
    }
  }

  lemma {:induction false} FieldsJsonTotal(record: Value, keys: seq<Text>)
    requires record.Obj? && Valid(record)
    requires forall k :: k in keys ==> k in Keys(record.fields)
    ensures FieldsJson(record, keys).Some? <==> forall k :: k in keys ==> Serializable(Lookup(record.fields, k))
    decreases record, 0, |keys|
  {
    if keys != [] {
      StableJsonTotal(Lookup(record.fields, keys[0]));
      FieldsJsonTotal(record, keys[1..]);
      assert keys == [keys[0]] + keys[1..];
    }
  }

  lemma {:induction false} LookupAt(fields: seq<Field>, i: nat)
    requires Distinct(Keys(fields)) && i < |fields|
    ensures Lookup(fields, fields[i].key) == fields[i].value
  {
    assert fields[i].key == Keys(fields)[i];
    if i > 0 {
      assert Keys(fields)[0] != Keys(fields)[i];
      assert Keys(fields[1..]) == Keys(fields)[1..];
      LookupAt(fields[1..], i - 1);
    }
  }

  /** Round trip: the decoder returns the value itself with its keys sorted, and
      consumes the whole text. */
  lemma RoundTrip(v: Value)
    requires Valid(v) && Serializable(v)
    ensures StableJson(v).Some?
    ensures ParseValue(StableJson(v).value) == Some((Canon(v), []))
  {
    StableJsonTotal(v);
    StableJsonPrints(v);
    assert StableJson(v).value + [] == StableJson(v).value;
  }

  /** The same JavaScript value, whatever order the keys of its objects are in. */
  ghost predicate Same(v: Value, w: Value)
    decreases v
  {
    match v
    case Arr(items) =>
      && w.Arr? && |items| == |w.items|
      && forall i :: 0 <= i < |items| ==> Same(items[i], w.items[i])
    case Obj(fields) =>
      && w.Obj?
      && (forall k :: k in Keys(fields) <==> k in Keys(w.fields))
      && forall k :: k in Keys(fields) ==> Same(Lookup(fields, k), Lookup(w.fields, k))
    case _ => v == w
  }

  lemma {:induction false} SamePrintsAlike(v: Value, w: Value)
    requires Valid(v) && Valid(w) && Same(v, w)
    ensures StableJson(v) == StableJson(w)
    decreases v, 1
  {
    match v
    case Arr(items) => SameItems(items, w.items);
    case Obj(fields) =>
      var keys, keys' := Keys(fields), Keys(w.fields);
      SortMembers(keys);
      SortMembers(keys');
      SortSorts(keys);
      SortSorts(keys');
      SortedUnique(Sort(keys), Sort(keys'));
      SameFields(v, w, Sort(keys));
    case _ =>
  }

  lemma {:induction false} SameItems(items: seq<Value>, items': seq<Value>)
    requires |items| == |items'|
    requires forall i :: 0 <= i < |items| ==> Valid(items[i]) && Valid(items'[i]) && Same(items[i], items'[i])
    ensures ItemsJson(items) == ItemsJson(items')
    decreases items, 0
  {
    if items != [] {
      SamePrintsAlike(items[0], items'[0]);
      SameItems(items[1..], items'[1..]);
    }
  }

  lemma {:induction false} SameFields(v: Value, w: Value, keys: seq<Text>)
    requires v.Obj? && Valid(v) && Valid(w) && Same(v, w)
    requires forall k :: k in keys ==> k in Keys(v.fields)
    ensures FieldsJson(v, keys) == FieldsJson(w, keys)
    decreases v, 0, |keys|
  {
    if keys != [] {
      SamePrintsAlike(Lookup(v.fields, keys[0]), Lookup(w.fields, keys[0]));
      SameFields(v, w, keys[1..]);
    }
  }

  lemma {:induction false} CanonDeterminesValue(v: Value, w: Value)
    requires Valid(v) && Valid(w) && Canon(v) == Canon(w)
    ensures Same(v, w)
    decreases v, 1
  {
    match v
    case Arr(items) =>
      CanonItemsDetermine(items, w.items);
    case Obj(fields) =>
      var keys, keys' := Sort(Keys(fields)), Sort(Keys(w.fields));
      SortMembers(Keys(fields));
      SortMembers(Keys(w.fields));
      CanonFieldsKeys(v, keys);
      CanonFieldsKeys(w, keys');
      CanonFieldsDetermine(v, w, keys);
    case _ =>
  }

  lemma {:induction false} CanonItemsDetermine(items: seq<Value>, items': seq<Value>)
    requires forall i :: 0 <= i < |items| ==> Valid(items[i])
    requires forall i :: 0 <= i < |items'| ==> Valid(items'[i])
    requires CanonItems(items) == CanonItems(items')
    ensures |items| == |items'|
    ensures forall i :: 0 <= i < |items| ==> Same(items[i], items'[i])
    decreases items, 0
  {
    if items != [] && items' != [] {
      assert CanonItems(items)[0] == CanonItems(items')[0];
      assert CanonItems(items)[1..] == CanonItems(items[1..]);
      assert CanonItems(items')[1..] == CanonItems(items'[1..]);
      CanonDeterminesValue(items[0], items'[0]);
      CanonItemsDetermine(items[1..], items'[1..]);
      assert forall i :: 0 < i < |items| ==> items[i] == items[1..][i - 1] && items'[i] == items'[1..][i - 1];
    }
  }

  lemma {:induction false} CanonFieldsKeys(record: Value, keys: seq<Text>)
    requires record.Obj? && forall k :: k in keys ==> k in Keys(record.fields)
    ensures Keys(CanonFields(record, keys)) == keys
    decreases |keys|
  {
    if keys != [] {
      CanonFieldsKeys(record, keys[1..]);
      assert CanonFields(record, keys)[1..] == CanonFields(record, keys[1..]);
    }
  }

  lemma {:induction false} CanonFieldsDetermine(v: Value, w: Value, keys: seq<Text>)
    requires v.Obj? && w.Obj? && Valid(v) && Valid(w)
    requires forall k :: k in keys ==> k in Keys(v.fields) && k in Keys(w.fields)
    requires CanonFields(v, keys) == CanonFields(w, keys)
    ensures forall k :: k in keys ==> Same(Lookup(v.fields, k), Lookup(w.fields, k))
    decreases v, 0, |keys|
  {
    if keys != [] {
      assert CanonFields(v, keys)[0] == CanonFields(w, keys)[0];
      assert CanonFields(v, keys)[1..] == CanonFields(v, keys[1..]);
      assert CanonFields(w, keys)[1..] == CanonFields(w, keys[1..]);
      CanonDeterminesValue(Lookup(v.fields, keys[0]), Lookup(w.fields, keys[0]));
      CanonFieldsDetermine(v, w, keys[1..]);
      assert keys == [keys[0]] + keys[1..];
    }
  }

  /** Two receipts print alike exactly when they are the same value up to the
      order of object keys. */
  lemma PrintsAlikeIffSame(v: Value, w: Value)
    requires Valid(v) && Serializable(v) && Valid(w) && Serializable(w)
    ensures StableJson(v) == StableJson(w) <==> Same(v, w)
  {
    RoundTrip(v);
    RoundTrip(w);
    if StableJson(v) == StableJson(w) {
      CanonDeterminesValue(v, w);
    } else if Same(v, w) {
      SamePrintsAlike(v, w);
    }
  }
}
