/**
  `writeOrderedJSON` and `marshalOrdered`: pretty-printing a JSON value with
  object keys in `orderKeys` order at every depth, two spaces of indentation
  per level. Scalars, `%q` key quoting and the `json.MarshalIndent` fallback
  are library encoders; they are parameters of the model (`Encoders`).
*/
module OrderedJson {
  import opened GoStrings
  import opened KeyOrder

  /** A decoded JSON value as the jq engine hands it over. */
  datatype Json =
    | Null
    | Bool(b: bool)
    | Num(n: real)
    | Str(s: string)
    | Arr(items: seq<Json>)
    | Obj(fields: map<string, Json>)

  datatype Result<T> = Ok(value: T) | Err(error: string)

  /** The result of a writer that returns only an error (or none). */
  datatype Outcome = Pass | Fail(error: string)

  /** The library encoders: `json.Marshal`, `%q` and `json.MarshalIndent(·, "", "  ")`. */
  datatype Encoders = Encoders(
    marshal: Json -> Result<string>,
    quote: string -> string,
    marshalIndent: Json -> Result<string>)

  /** The text written for `v` at nesting depth `d`, or the first error met on the way. */
  ghost function Render(v: Json, fieldOrder: seq<string>, d: nat, enc: Encoders): Result<string>
    decreases v, 1
  {
    match v
    case Obj(m) =>
      OrderedKeysMembers(m.Keys, fieldOrder);
      var keys := OrderedKeys(m.Keys, fieldOrder);
      var body := RenderEntries(v, keys, |keys|, fieldOrder, d, enc);
      if body.Err? then body else Ok("{\n" + body.value + "\n" + Indent(d) + "}")
    case Arr(items) =>
      var body := RenderItems(v, |items|, fieldOrder, d, enc);
      if body.Err? then body else Ok("[\n" + body.value + "\n" + Indent(d) + "]")
    case _ => enc.marshal(v)
  }

  /** What precedes entry `i` of an object at depth `d`: the separator, the indentation and the quoted key. */
  function EntryHead(i: nat, k: string, d: nat, enc: Encoders): string
  {
    (if i > 0 then ",\n" else "") + Indent(d + 1) + enc.quote(k) + ": "
  }

  /** What precedes element `i` of an array at depth `d`: the separator and the indentation. */
  function ItemHead(i: nat, d: nat): string
  {
    (if i > 0 then ",\n" else "") + Indent(d + 1)
  }

  /** The first `n` entries of object `v`, in the order `keys`, separated by ",\n". */
  ghost function RenderEntries(v: Json, keys: seq<string>, n: nat, fieldOrder: seq<string>, d: nat, enc: Encoders): Result<string>
    requires v.Obj? && n <= |keys|
    requires forall k :: k in keys ==> k in v.fields
    decreases v, 0, n
  {
    if n == 0 then Ok("")
    else
      var prev := RenderEntries(v, keys, n - 1, fieldOrder, d, enc);
      var k := keys[n - 1];
      var child := Render(v.fields[k], fieldOrder, d + 1, enc);
      if prev.Err? then prev
      else if child.Err? then child
      else Ok(prev.value + EntryHead(n - 1, k, d, enc) + child.value)
  }

  /** The first `n` elements of array `v`, in order, separated by ",\n". */
  ghost function RenderItems(v: Json, n: nat, fieldOrder: seq<string>, d: nat, enc: Encoders): Result<string>
    requires v.Arr? && n <= |v.items|
    decreases v, 0, n
  {
    if n == 0 then Ok("")
    else
      var prev := RenderItems(v, n - 1, fieldOrder, d, enc);
      var child := Render(v.items[n - 1], fieldOrder, d + 1, enc);
      if prev.Err? then prev
      else if child.Err? then child
      else Ok(prev.value + ItemHead(n - 1, d) + child.value)
  }

  /** The output buffer the writer appends to. */
  class Buffer {
    var data: string

    constructor()
      ensures data == ""
    {
      data := "";
    }

    method WriteString(s: string)
      modifies this
      ensures data == old(data) + s
    {
      data := data + s;
    }
  }

  /**
    `writeOrderedJSON(buf, v, fieldOrder, d)`: appends the rendering of `v`
    to `buf`, or returns the first error unchanged.
  */
  method WriteOrderedJson(buf: Buffer, v: Json, fieldOrder: seq<string>, d: nat, enc: Encoders) returns (err: Outcome)
    modifies buf
    ensures Render(v, fieldOrder, d, enc).Ok? ==>
      err == Pass && buf.data == old(buf.data) + Render(v, fieldOrder, d, enc).value
    ensures Render(v, fieldOrder, d, enc).Err? ==> err == Fail(Render(v, fieldOrder, d, enc).error)
    decreases v, 3
  {
    if v.Obj? {
      err := WriteObject(buf, v, fieldOrder, d, enc);
    } else if v.Arr? {
      err := WriteArray(buf, v, fieldOrder, d, enc);
    } else {
      var b := enc.marshal(v);
      if b.Err? {
        return Fail(b.error);
      }
      buf.WriteString(b.value);
      err := Pass;
    }
  }

  /** The object case: "{\n", the entries in `orderKeys` order, then the closing line. */
  method WriteObject(buf: Buffer, v: Json, fieldOrder: seq<string>, d: nat, enc: Encoders) returns (err: Outcome)
    requires v.Obj?
    modifies buf
    ensures Render(v, fieldOrder, d, enc).Ok? ==>
      err == Pass && buf.data == old(buf.data) + Render(v, fieldOrder, d, enc).value
    ensures Render(v, fieldOrder, d, enc).Err? ==> err == Fail(Render(v, fieldOrder, d, enc).error)
    decreases v, 2
  {
    buf.WriteString("{\n");
    var keys := OrderKeys(v.fields, fieldOrder);
    OrderedKeysMembers(v.fields.Keys, fieldOrder);
    err := WriteEntries(buf, v, keys, fieldOrder, d, enc, old(buf.data) + "{\n");
    if err.Fail? {
      return;
    }
    ghost var body := RenderEntries(v, keys, |keys|, fieldOrder, d, enc);
    buf.WriteString("\n");
    buf.WriteString(Indent(d));
    buf.WriteString("}");
    Regroup(old(buf.data), "{\n", body.value, "\n", Indent(d), "}");
  }

  /** The loop over the ordered keys, stopping at the first entry that fails. */
  method WriteEntries(buf: Buffer, v: Json, keys: seq<string>, fieldOrder: seq<string>, d: nat, enc: Encoders,
                      ghost base: string) returns (err: Outcome)
    requires v.Obj?
    requires forall k :: k in keys ==> k in v.fields
    requires buf.data == base
    modifies buf
    ensures var r := RenderEntries(v, keys, |keys|, fieldOrder, d, enc);
      (r.Ok? ==> err == Pass && buf.data == base + r.value) && (r.Err? ==> err == Fail(r.error))
    decreases v, 1
  {
    for i := 0 to |keys|
      invariant RenderEntries(v, keys, i, fieldOrder, d, enc).Ok?
      invariant buf.data == base + RenderEntries(v, keys, i, fieldOrder, d, enc).value
    {
      var e := WriteEntry(buf, v, keys, i, fieldOrder, d, enc, base);
      if e.Fail? {
        EntryErrorPersists(v, keys, i + 1, |keys|, fieldOrder, d, enc);
        return e;
      }
    }
    err := Pass;
  }

  /** One object entry: the separator, the indented quoted key, then the value one level deeper. */
  method WriteEntry(buf: Buffer, v: Json, keys: seq<string>, i: nat, fieldOrder: seq<string>, d: nat, enc: Encoders,
                    ghost base: string) returns (err: Outcome)
    requires v.Obj? && i < |keys|
    requires forall k :: k in keys ==> k in v.fields
    requires RenderEntries(v, keys, i, fieldOrder, d, enc).Ok?
    requires buf.data == base + RenderEntries(v, keys, i, fieldOrder, d, enc).value
    modifies buf
    ensures var r := RenderEntries(v, keys, i + 1, fieldOrder, d, enc);
      (r.Ok? ==> err == Pass && buf.data == base + r.value) && (r.Err? ==> err == Fail(r.error))
    decreases v, 0
  {
    WriteEntryHead(buf, i, keys[i], d, enc);
    ghost var child := Render(v.fields[keys[i]], fieldOrder, d + 1, enc);
    err := WriteOrderedJson(buf, v.fields[keys[i]], fieldOrder, d + 1, enc);
    if child.Ok? {
      Regroup3(base, RenderEntries(v, keys, i, fieldOrder, d, enc).value, EntryHead(i, keys[i], d, enc), child.value);
    }
  }

  /** The separator before every entry but the first, the indentation, and the quoted key with ": ". */
  method WriteEntryHead(buf: Buffer, i: nat, k: string, d: nat, enc: Encoders)
    modifies buf
    ensures buf.data == old(buf.data) + EntryHead(i, k, d, enc)
  {
    if i > 0 {
      buf.WriteString(",\n");
    }
    buf.WriteString(Indent(d + 1));
    buf.WriteString(enc.quote(k) + ": ");
  }

  /** The array case: "[\n", the elements in order, then the closing line. */
  method WriteArray(buf: Buffer, v: Json, fieldOrder: seq<string>, d: nat, enc: Encoders) returns (err: Outcome)
    requires v.Arr?
    modifies buf
    ensures Render(v, fieldOrder, d, enc).Ok? ==>
      err == Pass && buf.data == old(buf.data) + Render(v, fieldOrder, d, enc).value
    ensures Render(v, fieldOrder, d, enc).Err? ==> err == Fail(Render(v, fieldOrder, d, enc).error)
    decreases v, 2
  {
    buf.WriteString("[\n");
    err := WriteItems(buf, v, fieldOrder, d, enc, old(buf.data) + "[\n");
    if err.Fail? {
      return;
    }
    ghost var body := RenderItems(v, |v.items|, fieldOrder, d, enc);
    buf.WriteString("\n");
    buf.WriteString(Indent(d));
    buf.WriteString("]");
    Regroup(old(buf.data), "[\n", body.value, "\n", Indent(d), "]");
  }

  /** The loop over the elements, stopping at the first one that fails. */
  method WriteItems(buf: Buffer, v: Json, fieldOrder: seq<string>, d: nat, enc: Encoders,
                    ghost base: string) returns (err: Outcome)
    requires v.Arr?
    requires buf.data == base
    modifies buf
    ensures var r := RenderItems(v, |v.items|, fieldOrder, d, enc);
      (r.Ok? ==> err == Pass && buf.data == base + r.value) && (r.Err? ==> err == Fail(r.error))
    decreases v, 1
  {
    for i := 0 to |v.items|
      invariant RenderItems(v, i, fieldOrder, d, enc).Ok?
      invariant buf.data == base + RenderItems(v, i, fieldOrder, d, enc).value
    {
      var e := WriteItem(buf, v, i, fieldOrder, d, enc, base);
      if e.Fail? {
        ItemErrorPersists(v, i + 1, |v.items|, fieldOrder, d, enc);
        return e;
      }
    }
    err := Pass;
  }

  /** One array element: the separator, the indentation, then the element one level deeper. */
  method WriteItem(buf: Buffer, v: Json, i: nat, fieldOrder: seq<string>, d: nat, enc: Encoders,
                   ghost base: string) returns (err: Outcome)
    requires v.Arr? && i < |v.items|
    requires RenderItems(v, i, fieldOrder, d, enc).Ok?
    requires buf.data == base + RenderItems(v, i, fieldOrder, d, enc).value
    modifies buf
    ensures var r := RenderItems(v, i + 1, fieldOrder, d, enc);
      (r.Ok? ==> err == Pass && buf.data == base + r.value) && (r.Err? ==> err == Fail(r.error))
    decreases v, 0
  {
    WriteItemHead(buf, i, d);
    ghost var child := Render(v.items[i], fieldOrder, d + 1, enc);
    err := WriteOrderedJson(buf, v.items[i], fieldOrder, d + 1, enc);
    if child.Ok? {
      Regroup3(base, RenderItems(v, i, fieldOrder, d, enc).value, ItemHead(i, d), child.value);
    }
  }

  /** The separator before every element but the first, and the indentation. */
  method WriteItemHead(buf: Buffer, i: nat, d: nat)
    modifies buf
    ensures buf.data == old(buf.data) + ItemHead(i, d)
  {
    if i > 0 {
      buf.WriteString(",\n");
    }
    buf.WriteString(Indent(d + 1));
  }

  /** Appending pieces one at a time is appending their concatenation. */
  lemma Regroup(s: string, a: string, b: string, c: string, d: string, e: string)
    ensures s + a + b + c + d + e == s + (a + b + c + d + e)
  {
  }

  lemma Regroup3(s: string, a: string, b: string, c: string)
    ensures s + (a + b + c) == s + a + b + c
  {
  }

  /** Once an entry fails, the rendering of the whole object fails with that error. */
  lemma {:induction false} EntryErrorPersists(v: Json, keys: seq<string>, n: nat, k: nat, fieldOrder: seq<string>, d: nat, enc: Encoders)
    requires v.Obj? && n <= k <= |keys|
    requires forall key :: key in keys ==> key in v.fields
    requires RenderEntries(v, keys, n, fieldOrder, d, enc).Err?
    ensures RenderEntries(v, keys, k, fieldOrder, d, enc) == RenderEntries(v, keys, n, fieldOrder, d, enc)
    decreases k
  {
    if k > n {
      EntryErrorPersists(v, keys, n, k - 1, fieldOrder, d, enc);
    }
  }

  /** Once an element fails, the rendering of the whole array fails with that error. */
  lemma {:induction false} ItemErrorPersists(v: Json, n: nat, k: nat, fieldOrder: seq<string>, d: nat, enc: Encoders)
    requires v.Arr? && n <= k <= |v.items|
    requires RenderItems(v, n, fieldOrder, d, enc).Err?
    ensures RenderItems(v, k, fieldOrder, d, enc) == RenderItems(v, n, fieldOrder, d, enc)
    decreases k
  {
    if k > n {
      ItemErrorPersists(v, n, k - 1, fieldOrder, d, enc);
    }
  }

  /** Every scalar inside `v` is accepted by the scalar encoder. */
  ghost predicate Encodable(v: Json, enc: Encoders)
    decreases v
  {
    match v
    case Obj(m) => forall k :: k in m ==> Encodable(m[k], enc)
    case Arr(items) => forall i :: 0 <= i < |items| ==> Encodable(items[i], enc)
    case _ => enc.marshal(v).Ok?
  }

  /**
    Rendering succeeds exactly when every scalar inside the value encodes;
    neither the field order nor the depth makes a difference.
  */
  lemma {:induction false} RenderOkIff(v: Json, fieldOrder: seq<string>, d: nat, enc: Encoders)
    ensures Render(v, fieldOrder, d, enc).Ok? <==> Encodable(v, enc)
    decreases v, 1
  {
    match v
    case Obj(m) =>
      OrderedKeysMembers(m.Keys, fieldOrder);
      var keys := OrderedKeys(m.Keys, fieldOrder);
      EntriesOkIff(v, keys, |keys|, fieldOrder, d, enc);
      if Encodable(v, enc) {
        forall j | 0 <= j < |keys| ensures Encodable(m[keys[j]], enc) {
        }
      } else {
        var k :| k in m && !Encodable(m[k], enc);
        var j :| 0 <= j < |keys| && keys[j] == k;
      }
    case Arr(items) =>
      ItemsOkIff(v, |items|, fieldOrder, d, enc);
    case _ =>
  }

  lemma {:induction false} EntriesOkIff(v: Json, keys: seq<string>, n: nat, fieldOrder: seq<string>, d: nat, enc: Encoders)
    requires v.Obj? && n <= |keys|
    requires forall k :: k in keys ==> k in v.fields
    ensures RenderEntries(v, keys, n, fieldOrder, d, enc).Ok? <==>
      forall j :: 0 <= j < n ==> Encodable(v.fields[keys[j]], enc)
    decreases v, 0, n
  {
    if n > 0 {
      EntriesOkIff(v, keys, n - 1, fieldOrder, d, enc);
      RenderOkIff(v.fields[keys[n - 1]], fieldOrder, d + 1, enc);
    }
  }

  lemma {:induction false} ItemsOkIff(v: Json, n: nat, fieldOrder: seq<string>, d: nat, enc: Encoders)
    requires v.Arr? && n <= |v.items|
    ensures RenderItems(v, n, fieldOrder, d, enc).Ok? <==>
      forall j :: 0 <= j < n ==> Encodable(v.items[j], enc)
    decreases v, 0, n
  {
    if n > 0 {
      ItemsOkIff(v, n - 1, fieldOrder, d, enc);
      RenderOkIff(v.items[n - 1], fieldOrder, d + 1, enc);
    }
  }

  /** Some scalar inside `v` is refused by the scalar encoder with error `e`. */
  ghost predicate ScalarFails(v: Json, e: string, enc: Encoders)
    decreases v
  {
    match v
    case Obj(m) => exists k :: k in m && ScalarFails(m[k], e, enc)
    case Arr(items) => exists i :: 0 <= i < |items| && ScalarFails(items[i], e, enc)
    case _ => enc.marshal(v) == Err(e)
  }

  /** A failed rendering reports, unchanged, the error of a scalar inside the value. */
  lemma {:induction false} RenderErrorFromScalar(v: Json, fieldOrder: seq<string>, d: nat, enc: Encoders)
    requires Render(v, fieldOrder, d, enc).Err?
    ensures ScalarFails(v, Render(v, fieldOrder, d, enc).error, enc)
    decreases v, 1
  {
    match v
    case Obj(m) =>
      OrderedKeysMembers(m.Keys, fieldOrder);
      var keys := OrderedKeys(m.Keys, fieldOrder);
      var j := EntriesErrorFrom(v, keys, |keys|, fieldOrder, d, enc);
      assert keys[j] in m;
    case Arr(items) =>
      var j := ItemsErrorFrom(v, |items|, fieldOrder, d, enc);
    case _ =>
  }

  lemma {:induction false} EntriesErrorFrom(v: Json, keys: seq<string>, n: nat, fieldOrder: seq<string>, d: nat, enc: Encoders)
      returns (j: nat)
    requires v.Obj? && n <= |keys|
    requires forall k :: k in keys ==> k in v.fields
    requires RenderEntries(v, keys, n, fieldOrder, d, enc).Err?
    ensures j < n && ScalarFails(v.fields[keys[j]], RenderEntries(v, keys, n, fieldOrder, d, enc).error, enc)
    decreases v, 0, n
  {
    if RenderEntries(v, keys, n - 1, fieldOrder, d, enc).Err? {
      j := EntriesErrorFrom(v, keys, n - 1, fieldOrder, d, enc);
    } else {
      j := n - 1;
      RenderErrorFromScalar(v.fields[keys[j]], fieldOrder, d + 1, enc);
    }
  }

  lemma {:induction false} ItemsErrorFrom(v: Json, n: nat, fieldOrder: seq<string>, d: nat, enc: Encoders) returns (j: nat)
    requires v.Arr? && n <= |v.items|
    requires RenderItems(v, n, fieldOrder, d, enc).Err?
    ensures j < n && ScalarFails(v.items[j], RenderItems(v, n, fieldOrder, d, enc).error, enc)
    decreases v, 0, n
  {
    if RenderItems(v, n - 1, fieldOrder, d, enc).Err? {
      j := ItemsErrorFrom(v, n - 1, fieldOrder, d, enc);
    } else {
      j := n - 1;
      RenderErrorFromScalar(v.items[j], fieldOrder, d + 1, enc);
    }
  }

  /** The entry lines of an object at depth `d`: indentation, quoted key, ": " and the value's text. */
  function EntryLines(keys: seq<string>, values: seq<string>, d: nat, enc: Encoders): seq<string>
    requires |keys| == |values|
  {
    seq(|keys|, i requires 0 <= i < |keys| => Indent(d + 1) + enc.quote(keys[i]) + ": " + values[i])
  }

  /** The element lines of an array at depth `d`: indentation and the element's text. */
  function ItemLines(values: seq<string>, d: nat): seq<string>
  {
    seq(|values|, i requires 0 <= i < |values| => Indent(d + 1) + values[i])
  }

  lemma {:induction false} EntriesJoin(v: Json, keys: seq<string>, n: nat, fieldOrder: seq<string>, d: nat, enc: Encoders,
                                       values: seq<string>)
    requires v.Obj? && n <= |keys| && |values| == |keys|
    requires forall k :: k in keys ==> k in v.fields
    requires forall j :: 0 <= j < n ==> Render(v.fields[keys[j]], fieldOrder, d + 1, enc) == Ok(values[j])
    ensures RenderEntries(v, keys, n, fieldOrder, d, enc) == Ok(Join(EntryLines(keys[..n], values[..n], d, enc), ",\n"))
  {
    if n > 0 {
      EntriesJoin(v, keys, n - 1, fieldOrder, d, enc, values);
      var k := keys[n - 1];
      var before := EntryLines(keys[..n - 1], values[..n - 1], d, enc);
      var last := Indent(d + 1) + enc.quote(k) + ": " + values[n - 1];
      EntryLinesSnoc(keys, values, n, d, enc);
      JoinAppend(before, last, Join(before, ",\n"), EntryHead(n - 1, k, d, enc), values[n - 1]);
    }
  }

  lemma EntryLinesSnoc(keys: seq<string>, values: seq<string>, n: nat, d: nat, enc: Encoders)
    requires 0 < n <= |keys| == |values|
    ensures EntryLines(keys[..n], values[..n], d, enc) ==
      EntryLines(keys[..n - 1], values[..n - 1], d, enc) + [Indent(d + 1) + enc.quote(keys[n - 1]) + ": " + values[n - 1]]
  {
  }

  lemma {:induction false} ItemsJoin(v: Json, n: nat, fieldOrder: seq<string>, d: nat, enc: Encoders, values: seq<string>)
    requires v.Arr? && n <= |v.items| && |values| == |v.items|
    requires forall j :: 0 <= j < n ==> Render(v.items[j], fieldOrder, d + 1, enc) == Ok(values[j])
    ensures RenderItems(v, n, fieldOrder, d, enc) == Ok(Join(ItemLines(values[..n], d), ",\n"))
  {
    if n > 0 {
      ItemsJoin(v, n - 1, fieldOrder, d, enc, values);
      var before := ItemLines(values[..n - 1], d);
      var last := Indent(d + 1) + values[n - 1];
      assert ItemLines(values[..n], d) == before + [last];
      JoinAppend(before, last, Join(before, ",\n"), ItemHead(n - 1, d), values[n - 1]);
    }
  }

  /**
    Appending `head + text` to the join of `before` is the join with one more
    part, when `head` is the separator (or nothing, for the first part)
    followed by what starts the new part.
  */
  lemma JoinAppend(before: seq<string>, last: string, prev: string, head: string, text: string)
    requires prev == Join(before, ",\n")
    requires |before| > 0 ==> ",\n" + last == head + text
    requires |before| == 0 ==> last == head + text
    ensures prev + head + text == Join(before + [last], ",\n")
  {
    if |before| > 0 {
      JoinAppendMore(before, last, prev, head, text);
    } else {
      assert before + [last] == [last];
    }
  }

  lemma JoinAppendMore(before: seq<string>, last: string, prev: string, head: string, text: string)
    requires prev == Join(before, ",\n") && |before| > 0
    requires ",\n" + last == head + text
    ensures prev + head + text == Join(before + [last], ",\n")
  {
    JoinSnoc(before, last, ",\n");
    ConcatAssoc(prev, head, text);
    ConcatAssoc(prev, ",\n", last);
  }

  lemma ConcatAssoc(a: string, b: string, c: string)
    ensures a + (b + c) == a + b + c
  {
  }

  /**
    Layout of an object at depth `d` whose values render as `values`: "{\n",
    the entries in `orderKeys` order joined by ",\n", a newline, the
    indentation of depth `d` and "}".
  */
  lemma ObjectLayout(m: map<string, Json>, fieldOrder: seq<string>, d: nat, enc: Encoders, values: seq<string>)
    requires var keys := OrderedKeys(m.Keys, fieldOrder);
      |values| == |keys| &&
      forall j :: 0 <= j < |keys| ==> keys[j] in m && Render(m[keys[j]], fieldOrder, d + 1, enc) == Ok(values[j])
    ensures var keys := OrderedKeys(m.Keys, fieldOrder);
      Render(Obj(m), fieldOrder, d, enc) == Ok("{\n" + Join(EntryLines(keys, values, d, enc), ",\n") + "\n" + Indent(d) + "}")
  {
    OrderedKeysMembers(m.Keys, fieldOrder);
    var keys := OrderedKeys(m.Keys, fieldOrder);
    EntriesJoin(Obj(m), keys, |keys|, fieldOrder, d, enc, values);
    assert keys[..|keys|] == keys && values[..|keys|] == values;
  }

  /**
    Layout of an array at depth `d` whose elements render as `values`: "[\n",
    the elements in order joined by ",\n", a newline, the indentation and "]".
  */
  lemma ArrayLayout(items: seq<Json>, fieldOrder: seq<string>, d: nat, enc: Encoders, values: seq<string>)
    requires |values| == |items|
    requires forall j :: 0 <= j < |items| ==> Render(items[j], fieldOrder, d + 1, enc) == Ok(values[j])
    ensures Render(Arr(items), fieldOrder, d, enc) == Ok("[\n" + Join(ItemLines(values, d), ",\n") + "\n" + Indent(d) + "]")
  {
    ItemsJoin(Arr(items), |items|, fieldOrder, d, enc, values);
    assert values[..|items|] == values;
  }

  /** An empty object or array still gets an empty line between its brackets. */
  lemma EmptyContainers(fieldOrder: seq<string>, d: nat, enc: Encoders)
    ensures Render(Obj(map[]), fieldOrder, d, enc) == Ok("{\n\n" + Indent(d) + "}")
    ensures Render(Arr([]), fieldOrder, d, enc) == Ok("[\n\n" + Indent(d) + "]")
  {
    var empty: map<string, Json> := map[];
    OrderedKeysCount(empty.Keys, fieldOrder);
    var keys := OrderedKeys(empty.Keys, fieldOrder);
    assert |keys| == |multiset(keys)| == 0;
    assert RenderEntries(Obj(empty), keys, 0, fieldOrder, d, enc) == Ok("");
    assert "{\n" + "" + "\n" == "{\n\n";
    assert "[\n" + "" + "\n" == "[\n\n";
  }

  /**
    `marshalOrdered(data, fieldOrder)`: the library's indented encoding when
    there is no field order, otherwise the ordered rendering from depth 0.
  */
  method MarshalOrdered(data: Json, fieldOrder: seq<string>, enc: Encoders) returns (r: Result<string>)
    ensures |fieldOrder| == 0 ==> r == enc.marshalIndent(data)
    ensures |fieldOrder| > 0 ==> r == Render(data, fieldOrder, 0, enc)
  {
    if |fieldOrder| == 0 {
      return enc.marshalIndent(data);
    }
    var buf := new Buffer();
    var err := WriteOrderedJson(buf, data, fieldOrder, 0, enc);
    if err.Fail? {
      return Err(err.error);
    }
    assert buf.data == Render(data, fieldOrder, 0, enc).value;
    return Ok(buf.data);
  }
}
