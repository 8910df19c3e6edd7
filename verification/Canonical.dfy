/**
 The canonical text of a JSON value (internal/canonical), and a reader that
 undoes it. Numbers are compared as texts; strconv.ParseFloat is a parameter.
 */
module Canonical {
  import opened Wrappers
  import opened DecimalText
  import opened JsonString
  import opened TextOrder

  /**
   What Marshal is given: decoded JSON, Go integers of any width, and the two
   families it refuses.
   */
  datatype Value =
    | Null
    | Bool(b: bool)
    | Str(s: string)
    | Num(text: string)
    | Int(n: int)
    | Arr(items: seq<Value>)
    | Obj(fields: map<string, Value>)
    | Floating
    | Unsupported

  /** The texts strconv.ParseFloat accepts. */
  type FloatSyntax = string -> bool

  predicate IsNumberChar(c: char) {
    '0' <= c <= '9' || 'a' <= c <= 'z' || 'A' <= c <= 'Z' || c == '+' || c == '-' || c == '.' || c == '_'
  }

  /** Digits, letters, signs, points and underscores, and none of the three JSON words. */
  predicate IsNumberText(s: string) {
    && s != "" && (forall i | 0 <= i < |s| :: IsNumberChar(s[i]))
    && s != "null" && s != "true" && s != "false"
  }

  /** What is assumed of ParseFloat: it accepts nothing but number texts. */
  ghost predicate AcceptsNumbersOnly(accepts: FloatSyntax) {
    forall s :: accepts(s) ==> IsNumberText(s)
  }

  // ----- Writing -----

  function IntText(n: int): string {
    if n < 0 then "-" + NatText(-n) else NatText(n)
  }

  /** The values Marshal accepts. */
  predicate Supported(v: Value, accepts: FloatSyntax) {
    match v
    case Num(text) => accepts(text) && (text == "" || text[0] != '+')
    case Arr(items) => forall i | 0 <= i < |items| :: Supported(items[i], accepts)
    case Obj(fields) => forall k | k in fields :: Supported(fields[k], accepts)
    case Floating => false
    case Unsupported => false
    case _ => true
  }

  ghost function Text(v: Value): string
    decreases v
  {
    match v
    case Null => "null"
    case Bool(b) => if b then "true" else "false"
    case Str(s) => Quote(s)
    case Num(text) => text
    case Int(n) => IntText(n)
    case Arr(_) => "[" + ItemsFrom(v, 0)
    case Obj(fields) => "{" + FieldsFrom(v, Sorted(fields.Keys), 0)
    case _ => ""
  }

  /** The items of an array from i on, and the closing bracket. */
  ghost function ItemsFrom(v: Value, i: nat): string
    requires v.Arr? && i <= |v.items|
    decreases v, |v.items| - i
  {
    if i == |v.items| then "]" else (if i > 0 then "," else "") + Text(v.items[i]) + ItemsFrom(v, i + 1)
  }

  /** The fields of an object from the i-th key on, and the closing brace. */
  ghost function FieldsFrom(v: Value, keys: seq<string>, i: nat): string
    requires v.Obj? && i <= |keys| && (forall k | k in keys :: k in v.fields)
    decreases v, |keys| - i
  {
    if i == |keys| then "}"
    else (if i > 0 then "," else "") + Quote(keys[i]) + ":" + Text(v.fields[keys[i]]) + FieldsFrom(v, keys, i + 1)
  }

  ghost function Marshal(v: Value, accepts: FloatSyntax): Option<string> {
    if Supported(v, accepts) then Some(Text(v)) else None
  }

  /**
   A value has a canonical text exactly when it contains no float and nothing of
   an unknown type, and each of its numbers is one that ParseFloat accepts and
   that has no plus sign in front; a number is then written as it is.
   */
  lemma MarshalsIff(v: Value, accepts: FloatSyntax)
    ensures v.Floating? || v.Unsupported? ==> Marshal(v, accepts).None?
    ensures v.Null? || v.Bool? || v.Str? || v.Int? ==> Marshal(v, accepts).Some?
    ensures v.Num? ==> Marshal(v, accepts) == if accepts(v.text) && !(['+'] <= v.text) then Some(v.text) else None
    ensures v.Arr? ==> (Marshal(v, accepts).Some? <==> forall x | x in v.items :: Marshal(x, accepts).Some?)
    ensures v.Obj? ==> (Marshal(v, accepts).Some? <==> forall k | k in v.fields :: Marshal(v.fields[k], accepts).Some?)
  {
    hide ItemsFrom, FieldsFrom, Quote;
    if v.Arr? {
      assert forall i | 0 <= i < |v.items| :: v.items[i] in v.items;
    }
  }

  /** What a reader gets back: an integer comes back as the number with its digits. */
  function Norm(v: Value): Value {
    match v
    case Int(n) => Num(IntText(n))
    case Arr(items) => Arr(seq(|items|, i requires 0 <= i < |items| => Norm(items[i])))
    case Obj(fields) => Obj(map k | k in fields :: Norm(fields[k]))
    case _ => v
  }

  // ----- Reading -----

  predicate IsDelimiter(c: char) {
    c == ',' || c == ']' || c == '}'
  }

  /** Where a word or a number ends. */
  function TokenEnd(s: string): (n: nat)
    ensures n <= |s|
  {
    if s == "" || IsDelimiter(s[0]) then 0 else 1 + TokenEnd(s[1..])
  }

  function ParseToken(s: string): (p: Option<Parsed<Value>>)
    ensures p.Some? ==> |p.value.rest| < |s|
  {
    var n := TokenEnd(s);
    var token := s[..n];
    if n == 0 then None
    else if token == "null" then Some(Parsed(Null, s[n..]))
    else if token == "true" then Some(Parsed(Bool(true), s[n..]))
    else if token == "false" then Some(Parsed(Bool(false), s[n..]))
    else if IsNumberText(token) then Some(Parsed(Num(token), s[n..]))
    else None
  }

  function ParseValue(s: string): (p: Option<Parsed<Value>>)
    ensures p.Some? ==> |p.value.rest| < |s|
    decreases |s|, 0
  {
    if s == "" then None
    else if s[0] == QUOTE then
      match ParseString(s[1..])
      case None => None
      case Some(text) => Some(Parsed(Str(text.value), text.rest))
    else if s[0] == '[' then
      match ParseItems(s[1..], true)
      case None => None
      case Some(items) => Some(Parsed(Arr(items.value), items.rest))
    else if s[0] == '{' then
      match ParseFields(s[1..], true)
      case None => None
      case Some(fields) => Some(Parsed(Obj(fields.value), fields.rest))
    else ParseToken(s)
  }

  function ParseItems(s: string, first: bool): (p: Option<Parsed<seq<Value>>>)
    ensures p.Some? ==> |p.value.rest| < |s|
    decreases |s|, 1
  {
    if s == "" then None
    else if s[0] == ']' then Some(Parsed([], s[1..]))
    else if !first && s[0] != ',' then None
    else
      match ParseValue(if first then s else s[1..])
      case None => None
      case Some(item) =>
        match ParseItems(item.rest, false)
        case None => None
        case Some(items) => Some(Parsed([item.value] + items.value, items.rest))
  }

  /** A field that occurs twice keeps its last value. */
  function ParseFields(s: string, first: bool): (p: Option<Parsed<map<string, Value>>>)
    ensures p.Some? ==> |p.value.rest| < |s|
    decreases |s|, 1
  {
    if s == "" then None
    else if s[0] == '}' then Some(Parsed(map[], s[1..]))
    else if !first && s[0] != ',' then None
    else
      var key := if first then s else s[1..];
      if key == "" || key[0] != QUOTE then None
      else
        match ParseString(key[1..])
        case None => None
        case Some(name) =>
          if name.rest == "" || name.rest[0] != ':' then None
          else
            match ParseValue(name.rest[1..])
            case None => None
            case Some(value) =>
              match ParseFields(value.rest, false)
              case None => None
              case Some(fields) => Some(Parsed(map[name.value := value.value] + fields.value, fields.rest))
  }

  function Decode(s: string): Option<Value> {
    match ParseValue(s)
    case None => None
    case Some(p) => if p.rest == "" then Some(p.value) else None
  }

  // ----- The reader undoes the writer -----

  /** What may follow a value: the end, or a delimiter. */
  predicate Ends(rest: string) {
    rest == "" || IsDelimiter(rest[0])
  }

  lemma {:induction false} TokenIsRead(token: string, rest: string)
    requires (forall i | 0 <= i < |token| :: !IsDelimiter(token[i])) && Ends(rest)
    ensures TokenEnd(token + rest) == |token|
  {
    var s := token + rest;
    if token == "" {
      assert s == rest;
    } else {
      assert s[1..] == token[1..] + rest;
      TokenIsRead(token[1..], rest);
    }
  }

  lemma NumberIsRead(text: string, rest: string)
    requires IsNumberText(text) && Ends(rest)
    ensures ParseValue(text + rest) == Some(Parsed(Num(text), rest))
  {
    var s := text + rest;
    TokenIsRead(text, rest);
    assert s[..|text|] == text && s[|text|..] == rest;
    assert s[0] == text[0] && IsNumberChar(text[0]);
  }

  lemma WordIsRead(v: Value, rest: string)
    requires (v.Null? || v.Bool?) && Ends(rest)
    ensures ParseValue(Text(v) + rest) == Some(Parsed(v, rest))
  {
    var word := Text(v);
    var s := word + rest;
    assert word == "null" || word == "true" || word == "false";
    TokenIsRead(word, rest);
    assert s[..|word|] == word && s[|word|..] == rest;
  }

  lemma IntTextIsNumber(n: int)
    ensures IsNumberText(IntText(n))
  {
    var digits := NatText(if n < 0 then -n else n);
    var s := IntText(n);
    forall i | 0 <= i < |s| ensures IsNumberChar(s[i]) && s[i] != 'u' {
      if n < 0 && i > 0 {
        assert s[i] == digits[i - 1] && IsDigit(digits[i - 1]);
      } else if n >= 0 {
        assert IsDigit(digits[i]);
      }
    }
    assert "null"[1] == 'u' && "true"[2] == 'u';
    if s == "false" {
      assert s[0] == 'f';
    }
  }

  /** The text of a supported value does not begin with what ends a value or separates two. */
  lemma TextStarts(v: Value, accepts: FloatSyntax)
    requires Supported(v, accepts) && AcceptsNumbersOnly(accepts)
    ensures Text(v) != "" && !IsDelimiter(Text(v)[0])
  {
    match v
    case Num(text) => assert IsNumberText(text) && IsNumberChar(text[0]);
    case Int(n) => IntTextIsNumber(n); assert IsNumberChar(IntText(n)[0]);
    case _ =>
  }

  lemma ArrayIsRead(text: string, items: seq<Value>, rest: string)
    requires ParseItems(text, true) == Some(Parsed(items, rest))
    ensures ParseValue("[" + text) == Some(Parsed(Arr(items), rest))
  {
    hide ParseItems, ParseFields, ParseString, ParseToken;
    assert ("[" + text)[1..] == text;
  }

  lemma ObjectIsRead(text: string, fields: map<string, Value>, rest: string)
    requires ParseFields(text, true) == Some(Parsed(fields, rest))
    ensures ParseValue("{" + text) == Some(Parsed(Obj(fields), rest))
  {
    hide ParseItems, ParseFields, ParseString, ParseToken;
    assert ("{" + text)[1..] == text;
  }

  lemma StringIsRead(s: string, rest: string)
    ensures ParseValue(Quote(s) + rest) == Some(Parsed(Str(s), rest))
  {
    hide ParseString, QuoteFrom;
    var text := Quote(s) + rest;
    StringRoundTrip(s, 0, rest);
    assert text[0] == QUOTE && text[1..] == QuoteFrom(s, 0) + rest;
    assert s[0..] == s;
  }

  function NormsFrom(items: seq<Value>, i: nat): seq<Value>
    requires i <= |items|
  {
    seq(|items| - i, j requires 0 <= j < |items| - i => Norm(items[i + j]))
  }

  function NormsOf(fields: map<string, Value>, keys: seq<string>, i: nat): map<string, Value>
    requires i <= |keys| && (forall k | k in keys :: k in fields)
  {
    map k | k in keys[i..] :: Norm(fields[k])
  }

  lemma ItemIsRead(text: string, first: bool, item: Value, later: string, items: seq<Value>, rest: string)
    requires text != "" && !IsDelimiter(text[0])
    requires ParseValue(text) == Some(Parsed(item, later)) && ParseItems(later, false) == Some(Parsed(items, rest))
    ensures ParseItems((if first then "" else ",") + text, first) == Some(Parsed([item] + items, rest))
  {
    hide ParseValue;
    var s := (if first then "" else ",") + text;
    assert first ==> s == text;
    assert !first ==> s[1..] == text;
  }

  lemma ListCloses(rest: string, first: bool)
    ensures ParseItems("]" + rest, first) == Some(Parsed([], rest))
    ensures ParseFields("}" + rest, first) == Some(Parsed(map[], rest))
  {
    assert ("]" + rest)[1..] == rest && ("}" + rest)[1..] == rest;
  }

  /** What follows an item ends it. */
  lemma ItemsEnd(v: Value, i: nat, rest: string)
    requires v.Arr? && 0 < i <= |v.items|
    ensures Ends(ItemsFrom(v, i) + rest)
  {
  }

  lemma FieldsEnd(v: Value, keys: seq<string>, i: nat, rest: string)
    requires v.Obj? && 0 < i <= |keys| && (forall k | k in keys :: k in v.fields)
    ensures Ends(FieldsFrom(v, keys, i) + rest)
  {
  }

  lemma FieldStep(s: string, first: bool, field: string, key: string, afterKey: string, value: Value, later: string,
                  fields: map<string, Value>, rest: string)
    requires s != "" && s[0] != '}' && (if first then s == field else s[0] == ',' && s[1..] == field)
    requires field != "" && field[0] == QUOTE && ParseString(field[1..]) == Some(Parsed(key, afterKey))
    requires afterKey != "" && afterKey[0] == ':' && ParseValue(afterKey[1..]) == Some(Parsed(value, later))
    requires ParseFields(later, false) == Some(Parsed(fields, rest))
    ensures ParseFields(s, first) == Some(Parsed(map[key := value] + fields, rest))
  {
    hide ParseValue, ParseString;
  }

  lemma FieldIsRead(key: string, text: string, first: bool, value: Value, later: string, fields: map<string, Value>, rest: string)
    requires ParseValue(text) == Some(Parsed(value, later)) && ParseFields(later, false) == Some(Parsed(fields, rest))
    ensures ParseFields((if first then "" else ",") + Quote(key) + ":" + text, first)
         == Some(Parsed(map[key := value] + fields, rest))
  {
    hide ParseValue, ParseString, ParseFields, QuoteFrom;
    var afterKey := ":" + text;
    var field := [QUOTE] + QuoteFrom(key, 0) + afterKey;
    var s := (if first then "" else ",") + Quote(key) + ":" + text;
    assert s == (if first then "" else ",") + field;
    assert field[1..] == QuoteFrom(key, 0) + afterKey;
    StringRoundTrip(key, 0, afterKey);
    assert key[0..] == key && afterKey[1..] == text;
    FieldStep(s, first, field, key, afterKey, value, later, fields, rest);
  }

  lemma NormsStep(fields: map<string, Value>, keys: seq<string>, i: nat)
    requires i < |keys| && (forall k | k in keys :: k in fields) && Increasing(keys)
    ensures NormsOf(fields, keys, i) == map[keys[i] := Norm(fields[keys[i]])] + NormsOf(fields, keys, i + 1)
  {
    hide Norm, Before;
    assert keys[i..] == [keys[i]] + keys[i + 1..];
    forall j | i + 1 <= j < |keys| ensures keys[j] != keys[i] {
      BeforeIsTotal(keys[i], keys[i]);
    }
    assert keys[i] !in keys[i + 1..];
  }

  lemma {:induction false} ValueIsRead(v: Value, accepts: FloatSyntax, rest: string)
    requires Supported(v, accepts) && AcceptsNumbersOnly(accepts) && Ends(rest)
    ensures ParseValue(Text(v) + rest) == Some(Parsed(Norm(v), rest))
    decreases v
  {
    hide ParseValue, IsNumberText, Quote, ItemsFrom, FieldsFrom, Ends, ParseItems, ParseFields;
    match v
    case Null => WordIsRead(v, rest);
    case Bool(_) => WordIsRead(v, rest);
    case Str(s) => StringIsRead(s, rest);
    case Num(text) => NumberIsRead(text, rest);
    case Int(n) => IntTextIsNumber(n); NumberIsRead(IntText(n), rest);
    case Arr(items) =>
      ItemsAreRead(v, accepts, 0, rest);
      ArrayIsRead(ItemsFrom(v, 0) + rest, NormsFrom(items, 0), rest);
      assert Text(v) + rest == "[" + (ItemsFrom(v, 0) + rest);
      assert NormsFrom(items, 0) == Norm(v).items;
    case Obj(fields) =>
      var keys := Sorted(fields.Keys);
      FieldsAreRead(v, accepts, keys, 0, rest);
      ObjectIsRead(FieldsFrom(v, keys, 0) + rest, NormsOf(fields, keys, 0), rest);
      assert Text(v) + rest == "{" + (FieldsFrom(v, keys, 0) + rest);
      assert NormsOf(fields, keys, 0) == Norm(v).fields;
    case _ =>
  }

  lemma {:induction false} ItemsAreRead(v: Value, accepts: FloatSyntax, i: nat, rest: string)
    requires v.Arr? && i <= |v.items| && Supported(v, accepts) && AcceptsNumbersOnly(accepts)
    ensures ParseItems(ItemsFrom(v, i) + rest, i == 0) == Some(Parsed(NormsFrom(v.items, i), rest))
    decreases v, |v.items| - i
  {
    hide ParseValue, ParseItems, Text, Norm, IsDelimiter, IsNumberText, Ends, AcceptsNumbersOnly;
    if i == |v.items| {
      ListCloses(rest, i == 0);
      assert ItemsFrom(v, i) == "]";
      assert NormsFrom(v.items, i) == [];
    } else {
      assert Supported(v.items[i], accepts);
      hide Supported;
      var item, later := v.items[i], ItemsFrom(v, i + 1) + rest;
      ItemsEnd(v, i + 1, rest);
      ValueIsRead(item, accepts, later);
      ItemsAreRead(v, accepts, i + 1, rest);
      TextStarts(item, accepts);
      var text := Text(item) + later;
      ItemIsRead(text, i == 0, Norm(item), later, NormsFrom(v.items, i + 1), rest);
      assert ItemsFrom(v, i) + rest == (if i == 0 then "" else ",") + text;
      assert NormsFrom(v.items, i) == [Norm(item)] + NormsFrom(v.items, i + 1);
    }
  }

  lemma {:induction false} FieldsAreRead(v: Value, accepts: FloatSyntax, keys: seq<string>, i: nat, rest: string)
    requires v.Obj? && i <= |keys| && (forall k | k in keys :: k in v.fields) && Increasing(keys)
    requires Supported(v, accepts) && AcceptsNumbersOnly(accepts)
    ensures ParseFields(FieldsFrom(v, keys, i) + rest, i == 0) == Some(Parsed(NormsOf(v.fields, keys, i), rest))
    decreases v, |keys| - i
  {
    hide ParseValue, ParseFields, Text, Norm, IsNumberText, Quote, Before, Ends;
    if i == |keys| {
      ListCloses(rest, i == 0);
      assert FieldsFrom(v, keys, i) == "}";
      assert NormsOf(v.fields, keys, i) == map[];
    } else {
      var key := keys[i];
      var value, later := v.fields[key], FieldsFrom(v, keys, i + 1) + rest;
      FieldsEnd(v, keys, i + 1, rest);
      ValueIsRead(value, accepts, later);
      FieldsAreRead(v, accepts, keys, i + 1, rest);
      var text := Text(value) + later;
      FieldIsRead(key, text, i == 0, Norm(value), later, NormsOf(v.fields, keys, i + 1), rest);
      assert FieldsFrom(v, keys, i) + rest == (if i == 0 then "" else ",") + Quote(key) + ":" + text;
      NormsStep(v.fields, keys, i);
    }
  }

  /** Reading what Marshal wrote gives the value back, integers as their digits. */
  lemma DecodeUndoesMarshal(v: Value, accepts: FloatSyntax)
    requires AcceptsNumbersOnly(accepts) && Marshal(v, accepts).Some?
    ensures Decode(Marshal(v, accepts).value) == Some(Norm(v))
  {
    hide ParseValue, Norm, Supported, Text;
    ValueIsRead(v, accepts, "");
    assert Text(v) + "" == Text(v);
  }

  lemma {:induction false} NormKeepsText(v: Value)
    ensures Text(Norm(v)) == Text(v)
    decreases v
  {
    match v
    case Arr(_) => NormKeepsItems(v, 0);
    case Obj(fields) =>
      assert Norm(v).fields.Keys == fields.Keys;
      NormKeepsFields(v, Sorted(fields.Keys), 0);
    case _ =>
  }

  lemma {:induction false} NormKeepsItems(v: Value, i: nat)
    requires v.Arr? && i <= |v.items|
    ensures ItemsFrom(Norm(v), i) == ItemsFrom(v, i)
    decreases v, |v.items| - i
  {
    if i < |v.items| {
      NormKeepsText(v.items[i]);
      NormKeepsItems(v, i + 1);
    }
  }

  lemma {:induction false} NormKeepsFields(v: Value, keys: seq<string>, i: nat)
    requires v.Obj? && i <= |keys| && (forall k | k in keys :: k in v.fields)
    ensures FieldsFrom(Norm(v), keys, i) == FieldsFrom(v, keys, i)
    decreases v, |keys| - i
  {
    if i < |keys| {
      NormKeepsText(v.fields[keys[i]]);
      NormKeepsFields(v, keys, i + 1);
    }
  }

  lemma MarshalIsText(v: Value, accepts: FloatSyntax)
    requires Marshal(v, accepts).Some?
    ensures Marshal(v, accepts) == Some(Text(v))
  {
    hide Supported, Text;
  }

  /** Only values that a reader cannot tell apart share a canonical text. */
  lemma MarshalIsInjective(v: Value, w: Value, accepts: FloatSyntax)
    requires AcceptsNumbersOnly(accepts) && Marshal(v, accepts).Some? && Marshal(w, accepts).Some?
    ensures Marshal(v, accepts) == Marshal(w, accepts) <==> Norm(v) == Norm(w)
  {
    hide *;
    DecodeUndoesMarshal(v, accepts);
    DecodeUndoesMarshal(w, accepts);
    if Norm(v) == Norm(w) {
      NormKeepsText(v);
      NormKeepsText(w);
      MarshalIsText(v, accepts);
      MarshalIsText(w, accepts);
    }
  }
}
