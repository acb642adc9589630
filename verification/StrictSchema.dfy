/** The strict-output rewrite of a JSON Schema (packages/codex/src/output-schema.ts). */
module StrictSchema {
  import opened Common
  import Strings

  /** An object is its entries in enumeration order. */
  datatype Json = Null | Bool(b: bool) | Num(n: real) | Str(s: string) | Arr(items: seq<Json>) | Obj(fields: seq<Field>)
  datatype Field = Field(key: string, value: Json)

  // ---------- objects ----------

  function Get(fields: seq<Field>, key: string): (r: Option<Json>)
    ensures r.Some? ==> Field(key, r.value) in fields
  {
    if fields == [] then None
    else if fields[0].key == key then Some(fields[0].value)
    else Get(fields[1..], key)
  }

  /** Assignment to a property: in place when the key is there, else at the end. */
  function Set(fields: seq<Field>, key: string, value: Json): (r: seq<Field>)
    ensures forall f | f in r :: f in fields || f == Field(key, value)
  {
    if fields == [] then [Field(key, value)]
    else if fields[0].key == key then [Field(key, value)] + fields[1..]
    else [fields[0]] + Set(fields[1..], key, value)
  }

  predicate HasKey(fields: seq<Field>, key: string) {
    exists f | f in fields :: f.key == key
  }

  predicate Distinct(fields: seq<Field>) {
    fields == [] || (!HasKey(fields[1..], fields[0].key) && Distinct(fields[1..]))
  }

  function KeysOf(fields: seq<Field>): (r: seq<string>)
    ensures |r| == |fields|
  {
    if fields == [] then [] else [fields[0].key] + KeysOf(fields[1..])
  }

  lemma {:induction false} GetSet(fields: seq<Field>, key: string, value: Json, other: string)
    ensures Get(Set(fields, key, value), other) == if other == key then Some(value) else Get(fields, other)
  {
    if fields != [] && fields[0].key != key {
      assert Set(fields, key, value)[1..] == Set(fields[1..], key, value);
      GetSet(fields[1..], key, value, other);
    } else if fields != [] {
      assert Set(fields, key, value)[1..] == fields[1..];
    }
  }

  lemma {:induction false} SetSame(fields: seq<Field>, key: string, value: Json)
    requires Get(fields, key) == Some(value)
    ensures Set(fields, key, value) == fields
  {
    if fields[0].key != key { SetSame(fields[1..], key, value); }
  }

  lemma {:induction false} GetIff(fields: seq<Field>, key: string)
    ensures Get(fields, key).Some? <==> HasKey(fields, key)
  {
    if fields != [] {
      GetIff(fields[1..], key);
      assert fields[0] in fields;
      assert forall f | f in fields :: f == fields[0] || f in fields[1..];
      assert forall f | f in fields[1..] :: f in fields;
    }
  }

  lemma {:induction false} SetKeys(fields: seq<Field>, key: string, value: Json)
    ensures KeysOf(Set(fields, key, value))
            == if Get(fields, key).Some? then KeysOf(fields) else KeysOf(fields) + [key]
  {
    if fields != [] && fields[0].key != key {
      assert Set(fields, key, value)[1..] == Set(fields[1..], key, value);
      SetKeys(fields[1..], key, value);
    } else if fields != [] {
      assert Set(fields, key, value)[1..] == fields[1..];
    }
  }

  lemma {:induction false} SetDistinct(fields: seq<Field>, key: string, value: Json)
    requires Distinct(fields)
    ensures Distinct(Set(fields, key, value))
  {
    if fields != [] && fields[0].key != key {
      assert Set(fields, key, value)[1..] == Set(fields[1..], key, value);
      SetDistinct(fields[1..], key, value);
    } else if fields != [] {
      assert Set(fields, key, value)[1..] == fields[1..];
    }
  }

  lemma {:induction false} SetFresh(fields: seq<Field>, key: string, value: Json)
    requires !HasKey(fields, key)
    ensures Set(fields, key, value) == fields + [Field(key, value)]
  {
    if fields != [] {
      assert fields[0] in fields;
      assert forall f | f in fields[1..] :: f in fields;
      SetFresh(fields[1..], key, value);
    }
  }

  // ---------- the rewrite ----------

  /** JavaScript's `typeof v === 'object'` for a value that is not null: arrays included. */
  predicate ObjectLike(v: Option<Json>) {
    v.Some? && (v.value.Obj? || v.value.Arr?)
  }

  /** Object.keys: an array's keys are its indices. */
  function Keys(v: Json): seq<string>
    requires v.Obj? || v.Arr?
  {
    match v
    case Obj(fields) => KeysOf(fields)
    case Arr(items) => seq(|items|, i requires 0 <= i < |items| => Strings.Decimal(i))
  }

  function Names(names: seq<string>): Json {
    Arr(seq(|names|, i requires 0 <= i < |names| => Str(names[i])))
  }

  predicate Triggers(fields: seq<Field>) {
    Get(fields, "type") == Some(Str("object")) || ObjectLike(Get(fields, "properties"))
  }

  function Close(fields: seq<Field>): seq<Field> {
    if !Triggers(fields) then fields
    else
      var closed := Set(fields, "additionalProperties", Bool(false));
      if ObjectLike(Get(fields, "properties"))
      then Set(closed, "required", Names(Keys(Get(fields, "properties").value)))
      else closed
  }

  function Enforce(node: Json): Json
    decreases node, 1
  {
    match node
    case Arr(items) => Arr(EnforceItems(items))
    case Obj(fields) => Obj(Close(Copy(fields)))
    case _ => node
  }

  function EnforceItems(items: seq<Json>): (r: seq<Json>)
    ensures |r| == |items|
    decreases items, 0
  {
    if items == [] then [] else [Enforce(items[0])] + EnforceItems(items[1..])
  }

  /** The fresh object the loop fills. */
  function Copy(fields: seq<Field>): seq<Field>
    decreases fields, 0
  {
    if fields == [] then []
    else
      var n := |fields| - 1;
      Set(Copy(fields[..n]), fields[n].key, Enforce(fields[n].value))
  }

  method EnforceStrict(node: Json) returns (r: Json)
    ensures r == Enforce(node)
    decreases node
  {
    match node
    case Arr(items) =>
      var mapped := [];
      for i := 0 to |items|
        invariant EnforceItems(items) == mapped + EnforceItems(items[i..])
      {
        var item := EnforceStrict(items[i]);
        assert items[i..][1..] == items[i + 1..];
        mapped := mapped + [item];
      }
      assert items[|items|..] == [];
      r := Arr(mapped);
    case Obj(fields) =>
      var out := [];
      for i := 0 to |fields|
        invariant out == Copy(fields[..i])
      {
        var value := EnforceStrict(fields[i].value);
        assert fields[..i + 1][..i] == fields[..i];
        out := Set(out, fields[i].key, value);
      }
      assert fields[..|fields|] == fields;
      var props := Get(out, "properties");
      if Get(out, "type") == Some(Str("object")) || ObjectLike(props) {
        out := Set(out, "additionalProperties", Bool(false));
        if ObjectLike(props) { out := Set(out, "required", Names(Keys(props.value))); }
      }
      r := Obj(out);
    case _ => r := node;
  }

  // ---------- what strict means ----------

  predicate ClosedNode(fields: seq<Field>) {
    Triggers(fields) ==>
      && Get(fields, "additionalProperties") == Some(Bool(false))
      && (ObjectLike(Get(fields, "properties")) ==>
            Get(fields, "required") == Some(Names(Keys(Get(fields, "properties").value))))
  }

  /** Every object node of the tree is closed, and no object has a key twice. */
  predicate Strict(node: Json)
    decreases node
  {
    match node
    case Arr(items) => forall i | i in items :: Strict(i)
    case Obj(fields) => Distinct(fields) && ClosedNode(fields) && forall f | f in fields :: Strict(f.value)
    case _ => true
  }

  lemma CloseCloses(fields: seq<Field>)
    ensures ClosedNode(Close(fields))
    ensures Distinct(fields) ==> Distinct(Close(fields))
  {
    if Triggers(fields) {
      var closed := Set(fields, "additionalProperties", Bool(false));
      GetSet(fields, "additionalProperties", Bool(false), "type");
      GetSet(fields, "additionalProperties", Bool(false), "properties");
      GetSet(fields, "additionalProperties", Bool(false), "additionalProperties");
      if Distinct(fields) { SetDistinct(fields, "additionalProperties", Bool(false)); }
      if ObjectLike(Get(fields, "properties")) {
        var names := Names(Keys(Get(fields, "properties").value));
        GetSet(closed, "required", names, "type");
        GetSet(closed, "required", names, "properties");
        GetSet(closed, "required", names, "additionalProperties");
        GetSet(closed, "required", names, "required");
        if Distinct(fields) { SetDistinct(closed, "required", names); }
      }
    }
  }

  lemma CloseFixedIff(fields: seq<Field>)
    ensures Close(fields) == fields <==> ClosedNode(fields)
  {
    CloseCloses(fields);
    if ClosedNode(fields) && Triggers(fields) {
      SetSame(fields, "additionalProperties", Bool(false));
      if ObjectLike(Get(fields, "properties")) {
        SetSame(fields, "required", Names(Keys(Get(fields, "properties").value)));
      }
    }
  }

  lemma CloseStrictValues(fields: seq<Field>)
    requires forall f | f in fields :: Strict(f.value)
    ensures forall f | f in Close(fields) :: Strict(f.value)
  {
  }

  /** For every JSON tree, every object node of the output that the rewrite looks at is closed. */
  lemma {:induction false} OutputIsStrict(node: Json)
    ensures Strict(Enforce(node))
    decreases node, 1
  {
    match node
    case Arr(items) => ItemsAreStrict(items);
    case Obj(fields) =>
      CopyIsStrict(fields);
      CloseCloses(Copy(fields));
      CloseStrictValues(Copy(fields));
    case _ =>
  }

  lemma {:induction false} ItemsAreStrict(items: seq<Json>)
    ensures forall i | i in EnforceItems(items) :: Strict(i)
    decreases items, 0
  {
    if items != [] {
      OutputIsStrict(items[0]);
      ItemsAreStrict(items[1..]);
    }
  }

  lemma {:induction false} CopyIsStrict(fields: seq<Field>)
    ensures Distinct(Copy(fields))
    ensures forall f | f in Copy(fields) :: Strict(f.value)
    decreases fields, 0
  {
    if fields != [] {
      var n := |fields| - 1;
      CopyIsStrict(fields[..n]);
      OutputIsStrict(fields[n].value);
      SetDistinct(Copy(fields[..n]), fields[n].key, Enforce(fields[n].value));
    }
  }

  // ---------- fixed points ----------

  lemma {:induction false} StrictIsFixed(node: Json)
    requires Strict(node)
    ensures Enforce(node) == node
    decreases node, 1
  {
    match node
    case Arr(items) => StrictItemsAreFixed(items);
    case Obj(fields) =>
      StrictCopyIsFixed(fields);
      CloseFixedIff(fields);
    case _ =>
  }

  lemma {:induction false} StrictItemsAreFixed(items: seq<Json>)
    requires forall i | i in items :: Strict(i)
    ensures EnforceItems(items) == items
    decreases items, 0
  {
    if items != [] {
      assert items[0] in items;
      assert forall i | i in items[1..] :: i in items;
      StrictIsFixed(items[0]);
      StrictItemsAreFixed(items[1..]);
    }
  }

  lemma {:induction false} StrictCopyIsFixed(fields: seq<Field>)
    requires Distinct(fields) && forall f | f in fields :: Strict(f.value)
    ensures Copy(fields) == fields
    decreases fields, 0
  {
    if fields != [] {
      var n := |fields| - 1;
      var front, last := fields[..n], fields[n];
      assert last in fields;
      assert forall f | f in front :: f in fields;
      DistinctFront(fields);
      StrictCopyIsFixed(front);
      StrictIsFixed(last.value);
      assert Copy(fields) == Set(front, last.key, last.value);
      SetFresh(front, last.key, last.value);
      assert fields == front + [Field(last.key, last.value)];
    }
  }

  lemma {:induction false} DistinctFront(fields: seq<Field>)
    requires fields != [] && Distinct(fields)
    ensures var n := |fields| - 1; Distinct(fields[..n]) && !HasKey(fields[..n], fields[n].key)
  {
    var n := |fields| - 1;
    if n > 0 {
      var tail := fields[1..];
      DistinctFront(tail);
      assert tail[..n - 1] == fields[..n][1..];
      assert tail[n - 1] == fields[n] && fields[n] in tail;
      assert forall f | f in fields[..n][1..] :: f in tail;
      assert forall f | f in fields[..n] :: f == fields[0] || f in fields[..n][1..];
    }
  }

  /** The rewrite leaves a schema alone exactly when it already is strict. */
  lemma FixedIff(node: Json)
    ensures Enforce(node) == node <==> Strict(node)
  {
    OutputIsStrict(node);
    if Strict(node) { StrictIsFixed(node); }
  }

  /** Rewriting twice is rewriting once. */
  lemma Idempotent(node: Json)
    ensures Enforce(Enforce(node)) == Enforce(node)
  {
    OutputIsStrict(node);
    StrictIsFixed(Enforce(node));
  }

  // ---------- what is kept ----------

  function EnforceOption(v: Option<Json>): Option<Json> {
    if v.Some? then Some(Enforce(v.value)) else None
  }

  lemma {:induction false} CopyGet(fields: seq<Field>, key: string)
    requires Distinct(fields)
    ensures Get(Copy(fields), key) == EnforceOption(Get(fields, key))
  {
    if fields != [] {
      var n := |fields| - 1;
      var front, last := fields[..n], fields[n];
      DistinctFront(fields);
      CopyGet(front, key);
      GetSet(Copy(front), last.key, Enforce(last.value), key);
      assert fields == front + [last];
      SetFresh(front, last.key, last.value);
      GetSet(front, last.key, last.value, key);
    }
  }

  lemma {:induction false} CopyKeys(fields: seq<Field>)
    requires Distinct(fields)
    ensures KeysOf(Copy(fields)) == KeysOf(fields)
  {
    if fields != [] {
      var n := |fields| - 1;
      var front, last := fields[..n], fields[n];
      DistinctFront(fields);
      CopyKeys(front);
      CopyGet(front, last.key);
      GetIff(front, last.key);
      SetKeys(Copy(front), last.key, Enforce(last.value));
      SetFresh(front, last.key, last.value);
      SetKeys(front, last.key, last.value);
      assert fields == front + [last];
    }
  }

  lemma CopyTriggers(fields: seq<Field>)
    requires Distinct(fields)
    ensures Triggers(Copy(fields)) <==> Triggers(fields)
    ensures ObjectLike(Get(Copy(fields), "properties")) <==> ObjectLike(Get(fields, "properties"))
  {
    CopyGet(fields, "type");
    CopyGet(fields, "properties");
  }

  /** Every property of a node other than the two it closes with is the rewritten original, and no property is lost. */
  lemma NodeMeaning(fields: seq<Field>, key: string)
    requires Distinct(fields)
    ensures var out := Enforce(Obj(fields)).fields; var props := Get(fields, "properties");
            Get(out, key) ==
              if key == "additionalProperties" && Triggers(fields) then Some(Bool(false))
              else if key == "required" && ObjectLike(props) then Some(Names(Keys(Enforce(props.value))))
              else EnforceOption(Get(fields, key))
  {
    var copy := Copy(fields);
    CopyTriggers(fields);
    CopyGet(fields, key);
    CopyGet(fields, "properties");
    GetSet(copy, "additionalProperties", Bool(false), key);
    if ObjectLike(Get(copy, "properties")) {
      GetSet(Set(copy, "additionalProperties", Bool(false)), "required",
             Names(Keys(Get(copy, "properties").value)), key);
    }
  }

  /** The node is an object schema, by its type or because its properties are an object (or an array). */
  predicate IsObjectSchema(fields: seq<Field>) {
    var props := Get(fields, "properties");
    Get(fields, "type") == Some(Str("object")) || (props.Some? && (props.value.Obj? || props.value.Arr?))
  }

  predicate HasProperties(fields: seq<Field>) {
    var props := Get(fields, "properties");
    props.Some? && (props.value.Obj? || props.value.Arr?)
  }

  /** `required` as the rewrite writes it: the names of the properties, in order; an array's are its indices. */
  predicate RequiresKeysOf(required: Option<Json>, props: Json) {
    && required.Some? && required.value.Arr?
    && match props
       case Obj(fields) =>
         && |required.value.items| == |fields|
         && forall i | 0 <= i < |fields| :: required.value.items[i] == Str(fields[i].key)
       case Arr(items) =>
         && |required.value.items| == |items|
         && forall i | 0 <= i < |items| :: required.value.items[i] == Str(Strings.Decimal(i))
       case _ => false
  }

  lemma {:induction false} KeysAt(fields: seq<Field>, i: nat)
    requires i < |fields|
    ensures KeysOf(fields)[i] == fields[i].key
  {
    if i > 0 { KeysAt(fields[1..], i - 1); }
  }

  lemma NamesOfKeys(props: Json)
    requires props.Obj? || props.Arr?
    ensures RequiresKeysOf(Some(Names(Keys(props))), props)
  {
    if props.Obj? {
      forall i | 0 <= i < |props.fields| ensures KeysOf(props.fields)[i] == props.fields[i].key {
        KeysAt(props.fields, i);
      }
    }
  }

  /** What the rewrite makes of an object: the closing keys of an object schema, and every other property rewritten. */
  lemma RewrittenObject(fields: seq<Field>, key: string)
    requires Distinct(fields)
    ensures Enforce(Obj(fields)).Obj?
    ensures var out := Enforce(Obj(fields)).fields;
            && (IsObjectSchema(fields) ==> Get(out, "additionalProperties") == Some(Bool(false)))
            && (HasProperties(fields) ==>
                  RequiresKeysOf(Get(out, "required"), Enforce(Get(fields, "properties").value)))
            && (!(key == "additionalProperties" && IsObjectSchema(fields))
                && !(key == "required" && HasProperties(fields)) ==>
                  if Get(fields, key).None? then Get(out, key).None?
                  else Get(out, key) == Some(Enforce(Get(fields, key).value)))
  {
    NodeMeaning(fields, "additionalProperties");
    NodeMeaning(fields, "required");
    NodeMeaning(fields, key);
    if HasProperties(fields) { NamesOfKeys(Enforce(Get(fields, "properties").value)); }
  }

  /** Arrays are rewritten item by item; other values are left alone. */
  lemma {:induction false} RewrittenItems(items: seq<Json>, i: nat)
    ensures Enforce(Arr(items)).Arr? && |Enforce(Arr(items)).items| == |items|
    ensures i < |items| ==> Enforce(Arr(items)).items[i] == Enforce(items[i])
  {
    ItemAt(items, i);
  }

  lemma {:induction false} ItemAt(items: seq<Json>, i: nat)
    ensures i < |items| ==> EnforceItems(items)[i] == Enforce(items[i])
  {
    if 0 < i < |items| { ItemAt(items[1..], i - 1); }
  }

  function ClosingKeys(fields: seq<Field>): seq<string> {
    (if IsObjectSchema(fields) && Get(fields, "additionalProperties").None? then ["additionalProperties"] else [])
    + (if HasProperties(fields) && Get(fields, "required").None? then ["required"] else [])
  }

  lemma CloseKeys(fields: seq<Field>)
    ensures KeysOf(Close(fields)) == KeysOf(fields) + ClosingKeys(fields)
  {
    if IsObjectSchema(fields) {
      SetKeys(fields, "additionalProperties", Bool(false));
      GetSet(fields, "additionalProperties", Bool(false), "required");
      if HasProperties(fields) {
        var closed := Set(fields, "additionalProperties", Bool(false));
        SetKeys(closed, "required", Names(Keys(Get(fields, "properties").value)));
      }
    }
  }

  /** Properties stay in order; a closing key the node lacks comes last. */
  lemma RewrittenKeys(fields: seq<Field>)
    requires Distinct(fields)
    ensures KeysOf(Enforce(Obj(fields)).fields) == KeysOf(fields) + ClosingKeys(fields)
  {
    CopyTriggers(fields);
    CopyKeys(fields);
    CopyGet(fields, "additionalProperties");
    CopyGet(fields, "required");
    CloseKeys(Copy(fields));
    assert ClosingKeys(Copy(fields)) == ClosingKeys(fields);
  }

  // ---------- required names, and a property called "properties" ----------

  /** The object of properties would itself be taken for a schema node, and lacks a key that closing it adds. */
  predicate TakenForASchema(props: Json) {
    && props.Obj? && Triggers(props.fields)
    && (Get(props.fields, "additionalProperties").None?
        || (ObjectLike(Get(props.fields, "properties")) && Get(props.fields, "required").None?))
  }

  /**
   * The names listed in `required` are those of the original schema exactly when its properties are not mistaken
   * for a schema.
   */
  lemma RequiredAreThePropertiesIff(props: Json)
    requires props.Arr? || (props.Obj? && Distinct(props.fields))
    ensures Keys(Enforce(props)) == Keys(props) <==> !TakenForASchema(props)
  {
    if props.Obj? {
      var fields := props.fields;
      var copy := Copy(fields);
      CopyTriggers(fields);
      CopyKeys(fields);
      CopyGet(fields, "additionalProperties");
      CopyGet(fields, "required");
      SetKeys(copy, "additionalProperties", Bool(false));
      GetSet(copy, "additionalProperties", Bool(false), "required");
      if ObjectLike(Get(copy, "properties")) {
        SetKeys(Set(copy, "additionalProperties", Bool(false)), "required",
                Names(Keys(Get(copy, "properties").value)));
      }
    }
  }

  /** With a property called "properties" whose schema is an object, both closing keys become names. */
  lemma MistakenProperties(fields: seq<Field>)
    requires Distinct(fields) && ObjectLike(Get(fields, "properties"))
    requires Get(fields, "additionalProperties").None? && Get(fields, "required").None?
    ensures Keys(Enforce(Obj(fields))) == KeysOf(fields) + ["additionalProperties", "required"]
  {
    var copy := Copy(fields);
    CopyTriggers(fields);
    CopyKeys(fields);
    CopyGet(fields, "additionalProperties");
    CopyGet(fields, "required");
    SetKeys(copy, "additionalProperties", Bool(false));
    GetSet(copy, "additionalProperties", Bool(false), "required");
    SetKeys(Set(copy, "additionalProperties", Bool(false)), "required", Names(Keys(Get(copy, "properties").value)));
    assert KeysOf(fields) + ["additionalProperties", "required"]
           == (KeysOf(fields) + ["additionalProperties"]) + ["required"];
  }

  /** A schema with a field called "properties" comes out requiring two fields it does not have. */
  lemma AFieldCalledProperties(field: seq<Field>)
    ensures var schema := [Field("properties", Obj([Field("properties", Obj(field))]))];
            Get(Enforce(Obj(schema)).fields, "required")
            == Some(Names(["properties", "additionalProperties", "required"]))
  {
    var inner := [Field("properties", Obj(field))];
    var schema := [Field("properties", Obj(inner))];
    NodeMeaning(schema, "required");
    MistakenProperties(inner);
    assert KeysOf(inner) == ["properties"];
    assert ["properties"] + ["additionalProperties", "required"] == ["properties", "additionalProperties", "required"];
  }
}
