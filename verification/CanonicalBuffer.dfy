/** The encoder itself: it recurses over the value and appends to one shared buffer. */
module CanonicalBuffer {
  import opened Wrappers
  import opened DecimalText
  import opened JsonString
  import opened TextOrder
  import opened Canonical

  class Buffer {
    var data: string

    constructor ()
      ensures data == ""
    {
      data := "";
    }

    method WriteString(s: string)
      modifies this
      ensures data == old(data) + s
    {
      data := data + s;
    }
  }

  method AppendString(out: Buffer, s: string)
    modifies out
    ensures out.data == old(out.data) + Quote(s)
  {
    hide QuoteChar;
    ghost var whole := out.data + Quote(s);
    assert whole == (out.data + [QUOTE]) + QuoteFrom(s, 0);
    out.WriteString([QUOTE]);
    for i := 0 to |s|
      invariant out.data + QuoteFrom(s, i) == whole
    {
      ghost var before := out.data;
      out.WriteString(QuoteChar(s[i]));
      assert before + QuoteFrom(s, i) == out.data + QuoteFrom(s, i + 1);
    }
    out.WriteString([QUOTE]);
  }

  method AppendNumber(out: Buffer, text: string, accepts: FloatSyntax) returns (ok: bool)
    modifies out
    ensures ok <==> Supported(Num(text), accepts)
    ensures ok ==> out.data == old(out.data) + text
  {
    if !accepts(text) {
      return false;
    }
    if |text| > 0 && text[0] == '+' {
      return false;
    }
    out.WriteString(text);
    return true;
  }

  /** What is written at one item, and what remains after it. */
  lemma ItemsStep(v: Value, i: nat, before: string)
    requires v.Arr? && i < |v.items|
    ensures before + ItemsFrom(v, i) == (before + (if i > 0 then "," else "")) + Text(v.items[i]) + ItemsFrom(v, i + 1)
  {
    hide Text;
  }

  lemma FieldsStep(v: Value, keys: seq<string>, i: nat, before: string)
    requires v.Obj? && i < |keys| && (forall k | k in keys :: k in v.fields)
    ensures before + FieldsFrom(v, keys, i)
         == (((before + (if i > 0 then "," else "")) + Quote(keys[i])) + ":") + Text(v.fields[keys[i]]) + FieldsFrom(v, keys, i + 1)
  {
    hide Text, Quote;
  }

  lemma Supports(v: Value, accepts: FloatSyntax)
    ensures v.Arr? ==> (Supported(v, accepts) <==> forall j | 0 <= j < |v.items| :: Supported(v.items[j], accepts))
    ensures v.Obj? ==> (Supported(v, accepts) <==> forall k | k in v.fields :: Supported(v.fields[k], accepts))
  {
  }

  /** Collects the keys in whatever order the map yields them, then sorts them. */
  method SortedKeys(fields: map<string, Value>) returns (keys: seq<string>)
    ensures keys == Sorted(fields.Keys)
  {
    var names: seq<string> := [];
    var rest := fields.Keys;
    while rest != {}
      invariant rest <= fields.Keys
      invariant forall i, j | 0 <= i < j < |names| :: names[i] != names[j]
      invariant forall k :: k in fields.Keys - rest <==> k in names
      decreases |rest|
    {
      var key :| key in rest;
      assert key !in names;
      names := names + [key];
      rest := rest - {key};
    }
    keys := SortStrings(names, fields.Keys);
  }

  /** Appends the text of v; after a refusal the buffer holds what was written so far. */
  method AppendValue(out: Buffer, v: Value, accepts: FloatSyntax) returns (ok: bool)
    modifies out
    ensures ok <==> Supported(v, accepts)
    ensures ok ==> out.data == old(out.data) + Text(v)
    decreases v, 3
  {
    hide Quote, Sorted;
    match v
    case Null =>
      out.WriteString("null");
      return true;
    case Bool(b) =>
      if b {
        out.WriteString("true");
      } else {
        out.WriteString("false");
      }
      return true;
    case Str(s) =>
      AppendString(out, s);
      return true;
    case Num(text) =>
      ok := AppendNumber(out, text, accepts);
    case Int(n) =>
      out.WriteString(IntText(n));
      return true;
    case Arr(_) =>
      ok := AppendItems(out, v, accepts);
    case Obj(_) =>
      ok := AppendFields(out, v, accepts);
    case Floating =>
      return false;
    case Unsupported =>
      return false;
  }

  method AppendItem(out: Buffer, v: Value, i: nat, accepts: FloatSyntax) returns (ok: bool)
    requires v.Arr? && i < |v.items|
    modifies out
    ensures ok <==> Supported(v.items[i], accepts)
    ensures ok ==> out.data + ItemsFrom(v, i + 1) == old(out.data) + ItemsFrom(v, i)
    decreases v, 1
  {
    hide Text, ItemsFrom, Supported;
    ItemsStep(v, i, out.data);
    if i > 0 {
      out.WriteString(",");
    }
    ok := AppendValue(out, v.items[i], accepts);
  }

  method AppendField(out: Buffer, v: Value, keys: seq<string>, i: nat, accepts: FloatSyntax) returns (ok: bool)
    requires v.Obj? && i < |keys| && (forall k | k in keys :: k in v.fields)
    modifies out
    ensures ok <==> Supported(v.fields[keys[i]], accepts)
    ensures ok ==> out.data + FieldsFrom(v, keys, i + 1) == old(out.data) + FieldsFrom(v, keys, i)
    decreases v, 1
  {
    hide Text, FieldsFrom, Supported, Quote;
    FieldsStep(v, keys, i, out.data);
    if i > 0 {
      out.WriteString(",");
    }
    AppendString(out, keys[i]);
    out.WriteString(":");
    ok := AppendValue(out, v.fields[keys[i]], accepts);
  }

  method AppendItems(out: Buffer, v: Value, accepts: FloatSyntax) returns (ok: bool)
    requires v.Arr?
    modifies out
    ensures ok <==> Supported(v, accepts)
    ensures ok ==> out.data == old(out.data) + Text(v)
    decreases v, 2
  {
    ghost var whole := out.data + Text(v);
    assert whole == (out.data + "[") + ItemsFrom(v, 0);
    assert ItemsFrom(v, |v.items|) == "]";
    Supports(v, accepts);
    hide Text, ItemsFrom, Supported;
    out.WriteString("[");
    for i := 0 to |v.items|
      invariant forall j | 0 <= j < i :: Supported(v.items[j], accepts)
      invariant out.data + ItemsFrom(v, i) == whole
    {
      ok := AppendItem(out, v, i, accepts);
      if !ok {
        return;
      }
    }
    out.WriteString("]");
    return true;
  }

  method AppendFields(out: Buffer, v: Value, accepts: FloatSyntax) returns (ok: bool)
    requires v.Obj?
    modifies out
    ensures ok <==> Supported(v, accepts)
    ensures ok ==> out.data == old(out.data) + Text(v)
    decreases v, 2
  {
    hide Quote, Sorted;
    var keys := SortedKeys(v.fields);
    ghost var whole := out.data + Text(v);
    assert whole == (out.data + "{") + FieldsFrom(v, keys, 0);
    assert FieldsFrom(v, keys, |keys|) == "}";
    Supports(v, accepts);
    hide Text, FieldsFrom, Supported;
    out.WriteString("{");
    for i := 0 to |keys|
      invariant forall j | 0 <= j < i :: Supported(v.fields[keys[j]], accepts)
      invariant out.data + FieldsFrom(v, keys, i) == whole
    {
      ok := AppendField(out, v, keys, i, accepts);
      if !ok {
        return;
      }
    }
    out.WriteString("}");
    return true;
  }

  /** The text of a value; nothing when some part of it is refused. */
  method MarshalValue(v: Value, accepts: FloatSyntax) returns (r: Option<string>)
    ensures r == Marshal(v, accepts)
  {
    hide Supported, Text;
    var out := new Buffer();
    var ok := AppendValue(out, v, accepts);
    if !ok {
      return None;
    }
    assert "" + Text(v) == Text(v);
    return Some(out.data);
  }
}
