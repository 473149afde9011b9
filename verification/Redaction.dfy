/**
  Redacting structured details for error responses and audit records.

  Classifying keys and removing URL queries are parameters.  An object is the list of its
  enumerable entries; assigning an existing key replaces its value in place.
 */
module Redaction {
  import opened Arithmetic
  import opened Wrappers

  const MAX_DEPTH := 8
  const MAX_ITEMS := 64
  const MAX_TARGET_TEXT := 64
  const OMITTED := Text("[omitted]")

  datatype Value =
    | Text(text: string)
    | Number(number: real)
    | Boolean(flag: bool)
    | Null
    | Date(iso: string)
    | Exception(name: string, fields: Fields)   // with its own enumerable entries
    | Array(items: Items)
    | Record(fields: Fields)
    | Other                       // functions, symbols and the like

  datatype Items = NoItems | Item(head: Value, tail: Items)

  datatype Fields = NoFields | Field(key: string, value: Value, rest: Fields)

  /**
    What the regular expressions and sets say of a key, and the two string filters.  Paths
    count as sensitive.
   */
  datatype Rules = Rules(isTarget: string -> bool, isInput: string -> bool, isSensitive: string -> bool,
                         isUrl: string -> bool, isTargetSafe: string -> bool, removeUrlQuery: string -> string,
                         removeControls: string -> string)

  /** `result[key] = value`. */
  function Put(fields: Fields, key: string, value: Value): Fields {
    match fields
    case NoFields => Field(key, value, NoFields)
    case Field(k, v, rest) => if k == key then Field(k, value, rest) else Field(k, v, Put(rest, key, value))
  }

  /** `Object.entries` of what counts as a plain record: any object but an array. */
  function Entries(v: Value): Option<Fields> {
    match v
    case Record(fields) => Some(fields)
    case Exception(_, fields) => Some(fields)
    case Date(_) => Some(NoFields)
    case _ => None
  }

  function Clip(s: string): string { if |s| > MAX_TARGET_TEXT then s[..MAX_TARGET_TEXT] else s }

  // ---------------------------------------------------------------- what the sanitizers compute

  function SanitizeValue(c: Rules, value: Value, depth: nat): Value
    decreases value, 0
  {
    if depth > MAX_DEPTH then OMITTED
    else match value
      case Text(s) => Text(c.removeUrlQuery(s))
      case Number(_) => value
      case Boolean(_) => value
      case Null => value
      case Date(iso) => Text(iso)
      case Exception(name, _) => Record(Field("name", Text(name), NoFields))
      case Array(items) => Array(SanitizeItems(c, items, depth + 1, MAX_ITEMS))
      case Record(fields) => Record(SanitizeRecord(c, fields, depth + 1, NoFields))
      case Other => OMITTED
  }

  function SanitizeItems(c: Rules, items: Items, depth: nat, room: nat): Items
    decreases items
  {
    if items.NoItems? || room == 0 then NoItems
    else Item(SanitizeValue(c, items.head, depth), SanitizeItems(c, items.tail, depth, room - 1))
  }

  /** One entry added to the result so far. */
  function SanitizeEntry(c: Rules, key: string, value: Value, depth: nat, result: Fields): Fields
    decreases value, 1
  {
    if c.isTarget(key) then Put(result, key, Record(SanitizeTarget(c, value)))
    else if c.isInput(key) then
      if value.Text? then Put(result, "inputLength", Number(|value.text| as real)) else result
    else if c.isSensitive(key) then result
    else if c.isUrl(key) && value.Text? then Put(result, key, Text(c.removeUrlQuery(value.text)))
    else Put(result, key, SanitizeValue(c, value, depth + 1))
  }

  function SanitizeRecord(c: Rules, fields: Fields, depth: nat, result: Fields): Fields
    decreases fields
  {
    match fields
    case NoFields => result
    case Field(key, value, rest) => SanitizeRecord(c, rest, depth, SanitizeEntry(c, key, value, depth, result))
  }

  function SanitizeTarget(c: Rules, value: Value): Fields {
    if Entries(value).Some? then TargetFields(c, Entries(value).value, NoFields) else NoFields
  }

  function TargetFields(c: Rules, fields: Fields, result: Fields): Fields {
    match fields
    case NoFields => result
    case Field(key, value, rest) => TargetFields(c, rest, TargetEntry(c, key, value, result))
  }

  function TargetEntry(c: Rules, key: string, value: Value, result: Fields): Fields {
    if !c.isTargetSafe(key) then result
    else match value
      case Text(s) => Put(result, key, Text(Clip(c.removeControls(s))))
      case Number(_) => Put(result, key, value)
      case Boolean(_) => Put(result, key, value)
      case _ => result
  }

  /** `sanitizeErrorDetails`, where a missing value gives an empty record. */
  function SanitizeErrorDetails(c: Rules, value: Option<Value>): Fields {
    if value.None? then NoFields
    else if Entries(value.value).Some? then SanitizeRecord(c, Entries(value.value).value, 0, NoFields)
    else if value.value.Text? then Field("reason", Text(c.removeUrlQuery(value.value.text)), NoFields)
    else Field("reason", SanitizeValue(c, value.value, 0), NoFields)
  }

  // ---------------------------------------------------------------- the sanitizers

  method SanitizeRecordInto(c: Rules, value: Fields, depth: nat) returns (result: Fields)
    ensures result == SanitizeRecord(c, value, depth, NoFields)
    decreases value
  {
    result := NoFields;
    var entries := value;
    while entries.Field?
      invariant entries == value || entries < value
      invariant SanitizeRecord(c, value, depth, NoFields) == SanitizeRecord(c, entries, depth, result)
      decreases entries
    {
      var key, entry := entries.key, entries.value;
      if c.isTarget(key) {
        var target := SanitizeTargetInto(c, entry);
        result := Put(result, key, Record(target));
      } else if c.isInput(key) {
        if entry.Text? { result := Put(result, "inputLength", Number(|entry.text| as real)); }
      } else if c.isSensitive(key) {
      } else if c.isUrl(key) && entry.Text? {
        result := Put(result, key, Text(c.removeUrlQuery(entry.text)));
      } else {
        var v := SanitizeOne(c, entry, depth + 1);
        result := Put(result, key, v);
      }
      entries := entries.rest;
    }
  }

  method SanitizeOne(c: Rules, value: Value, depth: nat) returns (result: Value)
    ensures result == SanitizeValue(c, value, depth)
    decreases value
  {
    if depth > MAX_DEPTH { return OMITTED; }
    match value
    case Text(s) => result := Text(c.removeUrlQuery(s));
    case Number(_) => result := value;
    case Boolean(_) => result := value;
    case Null => result := value;
    case Date(iso) => result := Text(iso);
    case Exception(name, _) => result := Record(Field("name", Text(name), NoFields));
    case Array(items) => result := Array(SanitizeItems(c, items, depth + 1, MAX_ITEMS));
    case Record(fields) =>
      var sanitized := SanitizeRecordInto(c, fields, depth + 1);
      result := Record(sanitized);
    case Other => result := OMITTED;
  }

  method SanitizeTargetInto(c: Rules, value: Value) returns (result: Fields)
    ensures result == SanitizeTarget(c, value)
  {
    result := NoFields;
    if Entries(value).None? { return; }
    var entries := Entries(value).value;
    while entries.Field?
      invariant SanitizeTarget(c, value) == TargetFields(c, entries, result)
      decreases entries
    {
      result := TargetEntry(c, entries.key, entries.value, result);
      entries := entries.rest;
    }
  }

  // ---------------------------------------------------------------- nothing secret flows out

  /**
    Two values that differ only in what must not be seen: the value of a sensitive key, the
    content (not the length) of an input, what a target holds under other than its safe keys
    or behind the clipping of these, the removed part of a URL in any text, the entries of an
    error but its name, and what lies beyond the length and depth limits.
   */
  predicate SameButSecrets(c: Rules, a: Value, b: Value, depth: nat)
    decreases a, 0
  {
    depth > MAX_DEPTH ||
    match a
    case Text(_) => SameText(c, a, b)
    case Exception(name, _) => b.Exception? && name == b.name
    case Array(items) => b.Array? && SameItems(c, items, b.items, depth + 1, MAX_ITEMS)
    case Record(fields) => b.Record? && SameFields(c, fields, b.fields, depth + 1)
    case _ => a == b
  }

  predicate SameText(c: Rules, a: Value, b: Value) {
    a.Text? && b.Text? && c.removeUrlQuery(a.text) == c.removeUrlQuery(b.text)
  }

  predicate SameItems(c: Rules, a: Items, b: Items, depth: nat, room: nat)
    decreases a
  {
    if room == 0 then true
    else if a.NoItems? || b.NoItems? then a == b
    else SameButSecrets(c, a.head, b.head, depth) && SameItems(c, a.tail, b.tail, depth, room - 1)
  }

  predicate SameFields(c: Rules, a: Fields, b: Fields, depth: nat)
    decreases a
  {
    if a.NoFields? || b.NoFields? then a == b
    else a.key == b.key && SameEntry(c, a.key, a.value, b.value, depth) && SameFields(c, a.rest, b.rest, depth)
  }

  predicate SameEntry(c: Rules, key: string, a: Value, b: Value, depth: nat)
    decreases a, 1
  {
    if c.isTarget(key) then SameTarget(c, a, b)
    else if c.isInput(key) then
      (a.Text? && b.Text? && |a.text| == |b.text|) || (!a.Text? && !b.Text?)
    else if c.isUrl(key) && (a.Text? || b.Text?) then c.isSensitive(key) || SameText(c, a, b)
    else c.isSensitive(key) || SameButSecrets(c, a, b, depth + 1)
  }

  predicate SameTarget(c: Rules, a: Value, b: Value) {
    if Entries(a).Some? && Entries(b).Some? then SameTargetFields(c, Entries(a).value, Entries(b).value)
    else Entries(a).None? && Entries(b).None?
  }

  predicate SameTargetFields(c: Rules, a: Fields, b: Fields) {
    if a.NoFields? || b.NoFields? then a == b
    else
      a.key == b.key && (c.isTargetSafe(a.key) ==> SameTargetValue(c, a.value, b.value))
      && SameTargetFields(c, a.rest, b.rest)
  }

  predicate SameTargetValue(c: Rules, a: Value, b: Value) {
    match a
    case Text(s) => b.Text? && Clip(c.removeControls(s)) == Clip(c.removeControls(b.text))
    case Number(_) => a == b
    case Boolean(_) => a == b
    case _ => !b.Text? && !b.Number? && !b.Boolean?
  }

  lemma {:induction false} SecretsDoNotShow(c: Rules, a: Value, b: Value, depth: nat)
    requires SameButSecrets(c, a, b, depth)
    ensures SanitizeValue(c, a, depth) == SanitizeValue(c, b, depth)
    decreases a, 0
  {
    if depth <= MAX_DEPTH {
      if a.Array? {
        ItemsDoNotShow(c, a.items, b.items, depth + 1, MAX_ITEMS);
      } else if a.Record? {
        FieldsDoNotShow(c, a.fields, b.fields, depth + 1, NoFields);
      }
    }
  }

  lemma {:induction false} ItemsDoNotShow(c: Rules, a: Items, b: Items, depth: nat, room: nat)
    requires SameItems(c, a, b, depth, room)
    ensures SanitizeItems(c, a, depth, room) == SanitizeItems(c, b, depth, room)
    decreases a
  {
    if room > 0 && a.Item? && b.Item? {
      SecretsDoNotShow(c, a.head, b.head, depth);
      ItemsDoNotShow(c, a.tail, b.tail, depth, room - 1);
    }
  }

  lemma {:induction false} FieldsDoNotShow(c: Rules, a: Fields, b: Fields, depth: nat, result: Fields)
    requires SameFields(c, a, b, depth)
    ensures SanitizeRecord(c, a, depth, result) == SanitizeRecord(c, b, depth, result)
    decreases a
  {
    if a.Field? && b.Field? {
      EntryDoesNotShow(c, a.key, a.value, b.value, depth, result);
      FieldsDoNotShow(c, a.rest, b.rest, depth, SanitizeEntry(c, a.key, a.value, depth, result));
    }
  }

  lemma {:induction false} EntryDoesNotShow(c: Rules, key: string, a: Value, b: Value, depth: nat, result: Fields)
    requires SameEntry(c, key, a, b, depth)
    ensures SanitizeEntry(c, key, a, depth, result) == SanitizeEntry(c, key, b, depth, result)
    decreases a, 1
  {
    if c.isTarget(key) {
      if Entries(a).Some? { TargetDoesNotShow(c, Entries(a).value, Entries(b).value, NoFields); }
    } else if !c.isInput(key) && !c.isSensitive(key) && !(c.isUrl(key) && (a.Text? || b.Text?)) {
      SecretsDoNotShow(c, a, b, depth + 1);
    }
  }

  lemma {:induction false} TargetDoesNotShow(c: Rules, a: Fields, b: Fields, result: Fields)
    requires SameTargetFields(c, a, b)
    ensures TargetFields(c, a, result) == TargetFields(c, b, result)
    decreases a
  {
    if a.Field? && b.Field? { TargetDoesNotShow(c, a.rest, b.rest, TargetEntry(c, a.key, a.value, result)); }
  }

  /** Error details that differ only in secrets are reported the same. */
  lemma ErrorDetailsKeepSecrets(c: Rules, a: Value, b: Value)
    requires if Entries(a).Some? && Entries(b).Some? then SameFields(c, Entries(a).value, Entries(b).value, 0)
             else Entries(a).None? && Entries(b).None? && SameButSecrets(c, a, b, 0)
    ensures SanitizeErrorDetails(c, Some(a)) == SanitizeErrorDetails(c, Some(b))
  {
    if Entries(a).Some? {
      FieldsDoNotShow(c, Entries(a).value, Entries(b).value, 0, NoFields);
    } else {
      SecretsDoNotShow(c, a, b, 0);
    }
  }

  // ---------------------------------------------------------------- the shape of the result

  function Height(v: Value): nat {
    match v
    case Array(items) => 1 + ItemsHeight(items)
    case Record(fields) => 1 + FieldsHeight(fields)
    case _ => 0
  }

  function ItemsHeight(items: Items): nat {
    match items case NoItems => 0 case Item(head, tail) => Max(Height(head), ItemsHeight(tail))
  }

  function FieldsHeight(fields: Fields): nat {
    match fields case NoFields => 0 case Field(_, v, rest) => Max(Height(v), FieldsHeight(rest))
  }

  lemma {:induction false} PutHeight(fields: Fields, key: string, value: Value)
    ensures FieldsHeight(Put(fields, key, value)) <= Max(FieldsHeight(fields), Height(value))
  {
    if fields.Field? && fields.key != key { PutHeight(fields.rest, key, value); }
  }

  lemma {:induction false} TargetsAreFlat(c: Rules, fields: Fields, result: Fields)
    requires FieldsHeight(result) == 0
    ensures FieldsHeight(TargetFields(c, fields, result)) == 0
    decreases fields
  {
    if fields.Field? {
      var entry := TargetEntry(c, fields.key, fields.value, result);
      if c.isTargetSafe(fields.key) {
        match fields.value
        case Text(s) => PutHeight(result, fields.key, Text(Clip(c.removeControls(s))));
        case Number(_) => PutHeight(result, fields.key, fields.value);
        case Boolean(_) => PutHeight(result, fields.key, fields.value);
        case _ =>
      }
      TargetsAreFlat(c, fields.rest, entry);
    }
  }

  /** How high a sanitized value at a depth may be. */
  function Room(depth: nat): nat { if depth > MAX_DEPTH then 0 else MAX_DEPTH + 2 - depth }

  lemma {:induction false} ValuesStayLow(c: Rules, value: Value, depth: nat)
    ensures Height(SanitizeValue(c, value, depth)) <= Room(depth)
    decreases value, 0
  {
    if depth <= MAX_DEPTH {
      if value.Array? {
        ItemsStayLow(c, value.items, depth + 1, MAX_ITEMS);
      } else if value.Record? {
        FieldsStayLow(c, value.fields, depth + 1, NoFields);
      } else if value.Exception? {
        assert FieldsHeight(Field("name", Text(value.name), NoFields)) == 0;
      }
    }
  }

  lemma {:induction false} ItemsStayLow(c: Rules, items: Items, depth: nat, room: nat)
    ensures ItemsHeight(SanitizeItems(c, items, depth, room)) <= Room(depth)
    decreases items
  {
    if items.Item? && room > 0 {
      ValuesStayLow(c, items.head, depth);
      ItemsStayLow(c, items.tail, depth, room - 1);
    }
  }

  lemma {:induction false} EntryStaysLow(c: Rules, key: string, value: Value, depth: nat, result: Fields)
    requires FieldsHeight(result) <= Max(1, Room(depth + 1))
    ensures FieldsHeight(SanitizeEntry(c, key, value, depth, result)) <= Max(1, Room(depth + 1))
    decreases value, 1
  {
    if c.isTarget(key) {
      if Entries(value).Some? { TargetsAreFlat(c, Entries(value).value, NoFields); }
      PutHeight(result, key, Record(SanitizeTarget(c, value)));
    } else if c.isInput(key) {
      if value.Text? { PutHeight(result, "inputLength", Number(|value.text| as real)); }
    } else if c.isUrl(key) && value.Text? {
      PutHeight(result, key, Text(c.removeUrlQuery(value.text)));
    } else if !c.isSensitive(key) {
      ValuesStayLow(c, value, depth + 1);
      PutHeight(result, key, SanitizeValue(c, value, depth + 1));
    }
  }

  lemma {:induction false} FieldsStayLow(c: Rules, fields: Fields, depth: nat, result: Fields)
    requires FieldsHeight(result) <= Max(1, Room(depth + 1))
    ensures FieldsHeight(SanitizeRecord(c, fields, depth, result)) <= Max(1, Room(depth + 1))
    decreases fields
  {
    if fields.Field? {
      EntryStaysLow(c, fields.key, fields.value, depth, result);
      FieldsStayLow(c, fields.rest, depth, SanitizeEntry(c, fields.key, fields.value, depth, result));
    }
  }

  /** Values in reported details nest at most ten deep, however deep the input is. */
  lemma ErrorDetailsAreShallow(c: Rules, value: Option<Value>)
    ensures FieldsHeight(SanitizeErrorDetails(c, value)) <= MAX_DEPTH + 2
  {
    if value.Some? {
      if Entries(value.value).Some? {
        FieldsStayLow(c, Entries(value.value).value, 0, NoFields);
      } else {
        ValuesStayLow(c, value.value, 0);
      }
    }
  }

  /** Only keys that may be seen, at every level; a target holds plain values under its safe keys. */
  predicate OnlyVisible(c: Rules, v: Value) {
    match v
    case Array(items) => OnlyVisibleItems(c, items)
    case Record(fields) => OnlyVisibleFields(c, fields)
    case _ => true
  }

  predicate OnlyVisibleItems(c: Rules, items: Items) {
    match items case NoItems => true case Item(head, tail) => OnlyVisible(c, head) && OnlyVisibleItems(c, tail)
  }

  predicate OnlyVisibleFields(c: Rules, fields: Fields) {
    match fields
    case NoFields => true
    case Field(key, v, rest) =>
      && (if c.isTarget(key) then v.Record? && OnlyTargetFields(c, v.fields)
          else (key == "inputLength" || key == "name" || (!c.isInput(key) && !c.isSensitive(key))) && OnlyVisible(c, v))
      && OnlyVisibleFields(c, rest)
  }

  predicate OnlyTargetFields(c: Rules, fields: Fields) {
    match fields
    case NoFields => true
    case Field(key, v, rest) =>
      && c.isTargetSafe(key) && (v.Number? || v.Boolean? || (v.Text? && |v.text| <= MAX_TARGET_TEXT))
      && OnlyTargetFields(c, rest)
  }

  lemma {:induction false} PutVisible(c: Rules, fields: Fields, key: string, v: Value)
    requires OnlyVisibleFields(c, fields) && OnlyVisibleFields(c, Field(key, v, NoFields))
    ensures OnlyVisibleFields(c, Put(fields, key, v))
  {
    if fields.Field? && fields.key != key { PutVisible(c, fields.rest, key, v); }
  }

  lemma {:induction false} PutTarget(c: Rules, fields: Fields, key: string, v: Value)
    requires OnlyTargetFields(c, fields) && OnlyTargetFields(c, Field(key, v, NoFields))
    ensures OnlyTargetFields(c, Put(fields, key, v))
  {
    if fields.Field? && fields.key != key { PutTarget(c, fields.rest, key, v); }
  }

  lemma {:induction false} TargetsAreVisible(c: Rules, fields: Fields, result: Fields)
    requires OnlyTargetFields(c, result)
    ensures OnlyTargetFields(c, TargetFields(c, fields, result))
    decreases fields
  {
    if fields.Field? {
      if c.isTargetSafe(fields.key) {
        match fields.value
        case Text(s) => PutTarget(c, result, fields.key, Text(Clip(c.removeControls(s))));
        case Number(_) => PutTarget(c, result, fields.key, fields.value);
        case Boolean(_) => PutTarget(c, result, fields.key, fields.value);
        case _ =>
      }
      TargetsAreVisible(c, fields.rest, TargetEntry(c, fields.key, fields.value, result));
    }
  }

  /** The two names the sanitizer adds by itself are no target names. */
  predicate RulesOk(c: Rules) { !c.isTarget("inputLength") && !c.isTarget("name") }

  lemma {:induction false} ValuesAreVisible(c: Rules, value: Value, depth: nat)
    requires RulesOk(c)
    ensures OnlyVisible(c, SanitizeValue(c, value, depth))
    decreases value, 0
  {
    if depth <= MAX_DEPTH {
      if value.Array? {
        ItemsAreVisible(c, value.items, depth + 1, MAX_ITEMS);
      } else if value.Record? {
        FieldsAreVisible(c, value.fields, depth + 1, NoFields);
      }
    }
  }

  lemma {:induction false} ItemsAreVisible(c: Rules, items: Items, depth: nat, room: nat)
    requires RulesOk(c)
    ensures OnlyVisibleItems(c, SanitizeItems(c, items, depth, room))
    decreases items
  {
    if items.Item? && room > 0 {
      ValuesAreVisible(c, items.head, depth);
      ItemsAreVisible(c, items.tail, depth, room - 1);
    }
  }

  lemma {:induction false} EntryIsVisible(c: Rules, key: string, value: Value, depth: nat, result: Fields)
    requires RulesOk(c) && OnlyVisibleFields(c, result)
    ensures OnlyVisibleFields(c, SanitizeEntry(c, key, value, depth, result))
    decreases value, 1
  {
    if c.isTarget(key) {
      if Entries(value).Some? { TargetsAreVisible(c, Entries(value).value, NoFields); }
      PutVisible(c, result, key, Record(SanitizeTarget(c, value)));
    } else if c.isInput(key) {
      if value.Text? { PutVisible(c, result, "inputLength", Number(|value.text| as real)); }
    } else if c.isSensitive(key) {
    } else if c.isUrl(key) && value.Text? {
      PutVisible(c, result, key, Text(c.removeUrlQuery(value.text)));
    } else {
      ValuesAreVisible(c, value, depth + 1);
      PutVisible(c, result, key, SanitizeValue(c, value, depth + 1));
    }
  }

  lemma {:induction false} FieldsAreVisible(c: Rules, fields: Fields, depth: nat, result: Fields)
    requires RulesOk(c) && OnlyVisibleFields(c, result)
    ensures OnlyVisibleFields(c, SanitizeRecord(c, fields, depth, result))
    decreases fields
  {
    if fields.Field? {
      EntryIsVisible(c, fields.key, fields.value, depth, result);
      FieldsAreVisible(c, fields.rest, depth, SanitizeEntry(c, fields.key, fields.value, depth, result));
    }
  }

  /** Reported details hold no sensitive or input key at any level. */
  lemma ErrorDetailsShowOnlyVisibleKeys(c: Rules, value: Option<Value>)
    requires RulesOk(c)
    ensures var details := SanitizeErrorDetails(c, value);
            if value.None? || Entries(value.value).Some? then OnlyVisibleFields(c, details)
            else details.Field? && details.key == "reason" && details.rest == NoFields && OnlyVisible(c, details.value)
  {
    if value.Some? {
      if Entries(value.value).Some? {
        FieldsAreVisible(c, Entries(value.value).value, 0, NoFields);
      } else {
        ValuesAreVisible(c, value.value, 0);
      }
    }
  }

  // ---------------------------------------------------------------- what is still reported

  /** The value of a key in a record: the last one assigned. */
  function Given(fields: Fields, key: string): Option<Value> {
    match fields
    case NoFields => None
    case Field(k, v, rest) => if Given(rest, key).Some? then Given(rest, key) else if k == key then Some(v) else None
  }

  function Reported(fields: Fields, key: string): Option<Value> {
    match fields
    case NoFields => None
    case Field(k, v, rest) => if k == key then Some(v) else Reported(rest, key)
  }

  lemma {:induction false} PutReports(fields: Fields, key: string, value: Value, k: string)
    ensures Reported(Put(fields, key, value), k) == if k == key then Some(value) else Reported(fields, k)
  {
    if fields.Field? && fields.key != key { PutReports(fields.rest, key, value, k); }
  }

  /** A key the redaction has no reason to touch. */
  predicate PlainKey(c: Rules, key: string) {
    !c.isTarget(key) && !c.isInput(key) && !c.isSensitive(key) && key != "inputLength"
  }

  /** What stands under a plain key. */
  function Kept(c: Rules, key: string, value: Value, depth: nat): Value {
    if c.isUrl(key) && value.Text? then Text(c.removeUrlQuery(value.text)) else SanitizeValue(c, value, depth + 1)
  }

  lemma EntryReports(c: Rules, k: string, value: Value, depth: nat, result: Fields, key: string)
    requires PlainKey(c, key)
    ensures Reported(SanitizeEntry(c, k, value, depth, result), key) ==
            if k == key then Some(Kept(c, key, value, depth)) else Reported(result, key)
  {
    if c.isTarget(k) {
      PutReports(result, k, Record(SanitizeTarget(c, value)), key);
    } else if c.isInput(k) {
      if value.Text? { PutReports(result, "inputLength", Number(|value.text| as real), key); }
    } else if !c.isSensitive(k) {
      PutReports(result, k, Kept(c, k, value, depth), key);
    }
  }

  /** Every plain key of a record is reported, with the last value it was given, and no other plain key is. */
  lemma {:induction false} PlainKeysAreReported(c: Rules, fields: Fields, depth: nat, result: Fields, key: string)
    requires PlainKey(c, key)
    ensures Reported(SanitizeRecord(c, fields, depth, result), key) ==
            if Given(fields, key).Some? then Some(Kept(c, key, Given(fields, key).value, depth))
            else Reported(result, key)
    decreases fields
  {
    if fields.Field? {
      EntryReports(c, fields.key, fields.value, depth, result, key);
      PlainKeysAreReported(c, fields.rest, depth, SanitizeEntry(c, fields.key, fields.value, depth, result), key);
    }
  }

  /** The value at the end of a path of keys through nested records. */
  function GivenAt(fields: Fields, path: seq<string>): Option<Value>
    requires path != []
    decreases |path|
  {
    var v := Given(fields, path[0]);
    if |path| == 1 then v
    else if v.Some? && v.value.Record? then GivenAt(v.value.fields, path[1..]) else None
  }

  function ReportedAt(fields: Fields, path: seq<string>): Option<Value>
    requires path != []
    decreases |path|
  {
    var v := Reported(fields, path[0]);
    if |path| == 1 then v
    else if v.Some? && v.value.Record? then ReportedAt(v.value.fields, path[1..]) else None
  }

  predicate Scalar(v: Value) { v.Text? || v.Number? || v.Boolean? || v.Null? }

  /** A scalar as it is reported: texts lose the query part of URLs. */
  function ScalarShown(c: Rules, v: Value): Value { if v.Text? then Text(c.removeUrlQuery(v.text)) else v }

  lemma {:induction false} PathsAreKept(c: Rules, fields: Fields, path: seq<string>, depth: nat)
    requires path != [] && (forall i :: 0 <= i < |path| ==> PlainKey(c, path[i]))
    requires GivenAt(fields, path).Some? && Scalar(GivenAt(fields, path).value)
    requires depth + 2 * |path| - 1 <= MAX_DEPTH
    ensures ReportedAt(SanitizeRecord(c, fields, depth, NoFields), path) ==
            Some(ScalarShown(c, GivenAt(fields, path).value))
    decreases |path|
  {
    PlainKeysAreReported(c, fields, depth, NoFields, path[0]);
    if |path| > 1 {
      var inner := Given(fields, path[0]).value.fields;
      PathsAreKept(c, inner, path[1..], depth + 2);
    }
  }

  /**
    A scalar under plain keys, up to four records deep, is reported in its place; only texts lose the
    query part of URLs.
   */
  lemma PlainDetailsAreKept(c: Rules, details: Value, path: seq<string>)
    requires Entries(details).Some? && 1 <= |path| <= 4
    requires forall i :: 0 <= i < |path| ==> PlainKey(c, path[i])
    requires GivenAt(Entries(details).value, path).Some? && Scalar(GivenAt(Entries(details).value, path).value)
    ensures ReportedAt(SanitizeErrorDetails(c, Some(details)), path) ==
            Some(ScalarShown(c, GivenAt(Entries(details).value, path).value))
  {
    PathsAreKept(c, Entries(details).value, path, 0);
  }

  function ItemAt(items: Items, i: nat): Option<Value> {
    match items case NoItems => None case Item(head, tail) => if i == 0 then Some(head) else ItemAt(tail, i - 1)
  }

  /** The first items of a list are reported in their places, and the rest is not. */
  lemma {:induction false} ItemsAreKept(c: Rules, items: Items, depth: nat, room: nat, i: nat)
    ensures ItemAt(SanitizeItems(c, items, depth, room), i) ==
            if i < room && ItemAt(items, i).Some? then Some(SanitizeValue(c, ItemAt(items, i).value, depth)) else None
    decreases items
  {
    if items.Item? && room > 0 && i > 0 { ItemsAreKept(c, items.tail, depth, room - 1, i - 1); }
  }

  /** What a value becomes that is not too deep: plain data stays, a date is a text, an error is its name. */
  lemma {:induction false} ValuesAreKept(c: Rules, value: Value, depth: nat, i: nat)
    ensures depth > 8 ==> SanitizeValue(c, value, depth) == Text("[omitted]")
    ensures depth <= 8 ==>
              match value
              case Date(iso) => SanitizeValue(c, value, depth) == Text(iso)
              case Exception(name, _) => SanitizeValue(c, value, depth) == Record(Field("name", Text(name), NoFields))
              case Other => SanitizeValue(c, value, depth) == Text("[omitted]")
              case Record(_) => SanitizeValue(c, value, depth).Record?
              case Array(items) =>
                && SanitizeValue(c, value, depth).Array?
                && ItemAt(SanitizeValue(c, value, depth).items, i) ==
                   if i < 64 && ItemAt(items, i).Some? then Some(SanitizeValue(c, ItemAt(items, i).value, depth + 1))
                   else None
              case _ => SanitizeValue(c, value, depth) == ScalarShown(c, value)
  {
    if value.Array? && depth <= 8 { ItemsAreKept(c, value.items, depth + 1, MAX_ITEMS, i); }
  }

  /** The length that is reported for inputs: that of the last text among them. */
  function LastInputLength(c: Rules, fields: Fields): Option<nat> {
    match fields
    case NoFields => None
    case Field(k, v, rest) =>
      if LastInputLength(c, rest).Some? then LastInputLength(c, rest)
      else if !c.isTarget(k) && c.isInput(k) && v.Text? then Some(|v.text|) else None
  }

  /** Of inputs only a length is reported, unless a key of that very name is in the record. */
  lemma {:induction false} InputLengthIsReported(c: Rules, fields: Fields, depth: nat, result: Fields)
    requires Given(fields, "inputLength").None?
    ensures Reported(SanitizeRecord(c, fields, depth, result), "inputLength") ==
            if LastInputLength(c, fields).Some? then Some(Number(LastInputLength(c, fields).value as real))
            else Reported(result, "inputLength")
    decreases fields
  {
    if fields.Field? {
      var entry := SanitizeEntry(c, fields.key, fields.value, depth, result);
      if c.isTarget(fields.key) {
        PutReports(result, fields.key, Record(SanitizeTarget(c, fields.value)), "inputLength");
      } else if c.isInput(fields.key) {
        if fields.value.Text? {
          PutReports(result, "inputLength", Number(|fields.value.text| as real), "inputLength");
        }
      } else if !c.isSensitive(fields.key) {
        PutReports(result, fields.key, Kept(c, fields.key, fields.value, depth), "inputLength");
      }
      InputLengthIsReported(c, fields.rest, depth, entry);
    }
  }

  /** What a target shows under a safe key: the last plain value, cleaned and clipped. */
  function LastPlain(c: Rules, fields: Fields, key: string): Option<Value> {
    match fields
    case NoFields => None
    case Field(k, v, rest) =>
      if LastPlain(c, rest, key).Some? then LastPlain(c, rest, key)
      else if k != key then None
      else match v
        case Text(s) =>
          var clean := c.removeControls(s);
          Some(Text(if |clean| > 64 then clean[..64] else clean))
        case Number(_) => Some(v)
        case Boolean(_) => Some(v)
        case _ => None
  }

  lemma {:induction false} SafeTargetKeysAreReported(c: Rules, fields: Fields, result: Fields, key: string)
    ensures Reported(TargetFields(c, fields, result), key) ==
            if c.isTargetSafe(key) && LastPlain(c, fields, key).Some? then LastPlain(c, fields, key)
            else Reported(result, key)
    decreases fields
  {
    if fields.Field? {
      var entry := TargetEntry(c, fields.key, fields.value, result);
      if c.isTargetSafe(fields.key) {
        match fields.value
        case Text(s) => PutReports(result, fields.key, Text(Clip(c.removeControls(s))), key);
        case Number(_) => PutReports(result, fields.key, fields.value, key);
        case Boolean(_) => PutReports(result, fields.key, fields.value, key);
        case _ =>
      }
      SafeTargetKeysAreReported(c, fields.rest, entry, key);
    }
  }

  /** A target is reported as what is left of the last value it was given. */
  lemma {:induction false} TargetsAreReported(c: Rules, fields: Fields, depth: nat, result: Fields, key: string)
    requires c.isTarget(key) && key != "inputLength"
    ensures Reported(SanitizeRecord(c, fields, depth, result), key) ==
            if Given(fields, key).Some? then Some(Record(SanitizeTarget(c, Given(fields, key).value)))
            else Reported(result, key)
    decreases fields
  {
    if fields.Field? {
      if c.isTarget(fields.key) {
        PutReports(result, fields.key, Record(SanitizeTarget(c, fields.value)), key);
      } else if c.isInput(fields.key) {
        if fields.value.Text? { PutReports(result, "inputLength", Number(|fields.value.text| as real), key); }
      } else if !c.isSensitive(fields.key) {
        PutReports(result, fields.key, Kept(c, fields.key, fields.value, depth), key);
      }
      TargetsAreReported(c, fields.rest, depth, SanitizeEntry(c, fields.key, fields.value, depth, result), key);
    }
  }

  /** The details by kind: records and errors by their entries, a date by none, anything else as a reason. */
  lemma DetailsByKind(c: Rules, details: Value)
    ensures var report := SanitizeErrorDetails(c, Some(details));
            match details
            case Record(fields) => report == SanitizeRecord(c, fields, 0, NoFields)
            case Exception(_, fields) => report == SanitizeRecord(c, fields, 0, NoFields)
            case Date(_) => report == NoFields
            case Array(_) => Reported(report, "reason") == Some(SanitizeValue(c, details, 0))
            case Other => Reported(report, "reason") == Some(Text("[omitted]"))
            case _ => Reported(report, "reason") == Some(ScalarShown(c, details))
    ensures SanitizeErrorDetails(c, None) == NoFields
  {
  }
}
