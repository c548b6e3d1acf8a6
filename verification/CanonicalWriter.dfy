/** `write_canonical` as the code runs it: pushing into a buffer, in loops. */
module CanonicalWriter {
  import opened Common
  import opened Escapes
  import opened CanonicalJson
  import opened Text

  class Buffer {
    var text: string

    constructor ()
      ensures text == ""
    {
      text := "";
    }

    method Extend(s: string)
      modifies this
      ensures text == old(text) + s
    {
      text := text + s;
    }
  }

  /** The keys of a map in whatever order it yields them, then sorted. */
  method KeysInOrder(keys: set<string>) returns (ks: seq<string>)
    ensures ks == SortedKeys(keys)
  {
    ks := [];
    var rest := keys;
    while rest != {}
      invariant rest <= keys && Sorted(ks)
      invariant forall k :: k in ks <==> k in keys - rest
      decreases rest
    {
      var k :| k in rest;
      InsertSorts(k, ks);
      ks := Insert(k, ks);
      rest := rest - {k};
    }
    SortedUnique(ks, SortedKeys(keys));
  }

  method WriteCanonical(printable: char -> bool, v: Value, out: Buffer)
    modifies out
    ensures out.text == old(out.text) + Canon(printable, v)
    decreases v, 1
  {
    match v {
      case Null => out.Extend("null");
      case Bool(b) => out.Extend(if b then "true" else "false");
      case Number(token) => out.Extend(token);
      case String(s) => out.Extend(Quote(JsonEscape, s));
      case Array(items) =>
        ghost var before := out.text;
        out.Extend("[");
        WriteItems(printable, v, out);
        out.Extend("]");
        Prepend(before, "[", CanonItems(printable, items), "]");
      case Object(fields) =>
        ghost var before := out.text;
        var keys := KeysInOrder(fields.Keys);
        out.Extend("{");
        WriteFields(printable, v, keys, out);
        out.Extend("}");
        Prepend(before, "{", CanonFields(printable, v, keys), "}");
    }
  }

  /** What is still to be written of the items from `i` on. */
  ghost function ItemsFrom(printable: char -> bool, items: seq<Value>, i: nat): string
    requires i <= |items|
  {
    if i == 0 then CanonItems(printable, items) else CanonMoreItems(printable, items[i..])
  }

  method WriteItems(printable: char -> bool, v: Value, out: Buffer)
    requires v.Array?
    modifies out
    ensures out.text == old(out.text) + CanonItems(printable, v.items)
    decreases v, 0
  {
    var i := 0;
    while i < |v.items|
      invariant 0 <= i <= |v.items|
      invariant out.text + ItemsFrom(printable, v.items, i) == old(out.text) + CanonItems(printable, v.items)
    {
      ghost var before := out.text;
      if i > 0 {
        out.Extend(",");
      }
      WriteCanonical(printable, v.items[i], out);
      ItemStep(printable, v.items, i, before);
      i := i + 1;
    }
    assert out.text + ItemsFrom(printable, v.items, i) == out.text;
  }

  lemma ItemStep(printable: char -> bool, items: seq<Value>, i: nat, before: string)
    requires i < |items|
    ensures var sep := if i > 0 then "," else "";
            before + ItemsFrom(printable, items, i)
              == (before + sep + Canon(printable, items[i])) + ItemsFrom(printable, items, i + 1)
    ensures before + "" == before
  {
    assert items[i..][1..] == items[i + 1..];
    Prepend(before, if i > 0 then "," else "", Canon(printable, items[i]), CanonMoreItems(printable, items[i + 1..]));
  }

  ghost function FieldsFrom(printable: char -> bool, v: Value, ks: seq<string>, i: nat): string
    requires v.Object? && (forall k :: k in ks ==> k in v.fields) && i <= |ks|
  {
    if i == 0 then CanonFields(printable, v, ks) else CanonMoreFields(printable, v, ks[i..])
  }

  method WriteFields(printable: char -> bool, v: Value, ks: seq<string>, out: Buffer)
    requires v.Object? && forall k :: k in ks ==> k in v.fields
    modifies out
    ensures out.text == old(out.text) + CanonFields(printable, v, ks)
    decreases v, 0
  {
    var i := 0;
    while i < |ks|
      invariant 0 <= i <= |ks|
      invariant out.text + FieldsFrom(printable, v, ks, i) == old(out.text) + CanonFields(printable, v, ks)
    {
      ghost var before := out.text;
      if i > 0 {
        out.Extend(",");
      }
      out.Extend(Quote(DebugCode(printable), ks[i]));
      out.Extend(":");
      WriteCanonical(printable, v.fields[ks[i]], out);
      FieldStep(printable, v, ks, i, before);
      i := i + 1;
    }
    assert out.text + FieldsFrom(printable, v, ks, i) == out.text;
  }

  lemma FieldStep(printable: char -> bool, v: Value, ks: seq<string>, i: nat, before: string)
    requires v.Object? && (forall k :: k in ks ==> k in v.fields) && i < |ks|
    ensures var sep := if i > 0 then "," else "";
            before + FieldsFrom(printable, v, ks, i)
              == (before + sep + Quote(DebugCode(printable), ks[i]) + ":" + Canon(printable, v.fields[ks[i]]))
                 + FieldsFrom(printable, v, ks, i + 1)
    ensures before + "" == before
  {
    var sep := if i > 0 then "," else "";
    assert ks[i..][1..] == ks[i + 1..];
    Prepend(before, sep, CanonField(printable, v, ks[i]), CanonMoreFields(printable, v, ks[i + 1..]));
    Prepend(before + sep, Quote(DebugCode(printable), ks[i]), ":", Canon(printable, v.fields[ks[i]]));
  }
}
