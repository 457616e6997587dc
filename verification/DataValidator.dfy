/**
 Validation of data against a subset of JSON Schema.  Numbers are finite;
 patterns are compiled by a given function, and may fail to compile.
 */
module DataValidator {
  import opened Basics
  import opened JsText

  // `Undefined` stands for an absent value or field.
  datatype Value =
    | Undefined
    | Null
    | Boolean(b: bool)
    | Number(n: real)
    | Text(s: string)
    | Array(items: seq<Value>)
    | Object(fields: map<string, Value>)

  datatype Property = Property(name: string, schema: Schema)

  // An absent `required` or `properties` is an empty one.
  datatype Schema = Schema(
    types: Option<seq<string>>,
    values: Option<seq<Value>>,
    minimum: Option<real>,
    maximum: Option<real>,
    minLength: Option<real>,
    maxLength: Option<real>,
    pattern: Option<string>,
    email: bool,
    items: Option<Schema>,
    required: seq<string>,
    properties: seq<Property>)

  type Compile = string -> Option<string -> bool>

  datatype Problem =
    | WrongType(expected: seq<string>, actual: string)
    | NotListed(values: seq<Value>)
    | TooSmall(minimum: real)
    | TooLarge(maximum: real)
    | TooShort(minLength: real)
    | TooLong(maxLength: real)
    | NoMatch(pattern: string)
    | InvalidPattern(pattern: string)
    | NotAnEmail
    | Required

  datatype Issue = Issue(path: string, problem: Problem)

  // ------------------------------------------------------------- primitives

  function TypeOf(v: Value): string {
    match v
    case Undefined => "undefined"
    case Null => "null"
    case Boolean(_) => "boolean"
    case Number(_) => "number"
    case Text(_) => "string"
    case Array(_) => "array"
    case Object(_) => "object"
  }

  predicate IsInteger(r: real) {
    r == r.Floor as real
  }

  predicate HasType(v: Value, t: string) {
    if t == "integer" then v.Number? && IsInteger(v.n) else TypeOf(v) == t
  }

  predicate Compound(v: Value) {
    v.Array? || v.Object?
  }

  // Membership as `includes` decides it: arrays and objects are compared by
  // identity, and those of the data are not those of the schema.
  predicate Includes(values: seq<Value>, v: Value) {
    !Compound(v) && v in values
  }

  predicate PlainText(s: string) {
    s != "" && forall i :: 0 <= i < |s| ==> s[i] != '@' && !IsSpace(s[i])
  }

  // One or more plain characters, an at sign, and a dot further on.
  predicate IsEmail(s: string) {
    exists i, j :: 0 <= i < j < |s| && s[i] == '@' && s[j] == '.' &&
      PlainText(s[..i]) && PlainText(s[i+1..j]) && PlainText(s[j+1..])
  }

  function Field(v: Value, name: string): Value
    requires v.Object?
  {
    if name in v.fields then v.fields[name] else Undefined
  }

  function Base(path: string): string {
    if path == "/" then "" else path
  }

  // ------------------------------------------------------------------ issues

  function If(c: bool, path: string, p: Problem): seq<Issue> {
    if c then [Issue(path, p)] else []
  }

  function NumberIssues(schema: Schema, v: Value, path: string): seq<Issue> {
    if !v.Number? then []
    else
      (if schema.minimum.Some? then If(v.n < schema.minimum.value, path, TooSmall(schema.minimum.value)) else []) +
      (if schema.maximum.Some? then If(v.n > schema.maximum.value, path, TooLarge(schema.maximum.value)) else [])
  }

  function LengthIssues(schema: Schema, v: Value, path: string): seq<Issue>
    requires v.Text?
  {
    (if schema.minLength.Some?
     then If((|v.s| as real) < schema.minLength.value, path, TooShort(schema.minLength.value))
     else []) +
    (if schema.maxLength.Some?
     then If((|v.s| as real) > schema.maxLength.value, path, TooLong(schema.maxLength.value))
     else [])
  }

  function PatternIssues(compile: Compile, schema: Schema, v: Value, path: string): seq<Issue>
    requires v.Text?
  {
    if schema.pattern.None? then []
    else if compile(schema.pattern.value).None? then [Issue(path, InvalidPattern(schema.pattern.value))]
    else If(!compile(schema.pattern.value).value(v.s), path, NoMatch(schema.pattern.value))
  }

  function StringIssues(compile: Compile, schema: Schema, v: Value, path: string): seq<Issue> {
    if !v.Text? then []
    else
      LengthIssues(schema, v, path) + PatternIssues(compile, schema, v, path) +
      If(schema.email && !IsEmail(v.s), path, NotAnEmail)
  }

  function RequiredIssues(names: seq<string>, v: Value, base: string): seq<Issue>
    requires v.Object?
  {
    if names == [] then []
    else
      RequiredIssues(names[..|names|-1], v, base) +
      If(Field(v, names[|names|-1]).Undefined?, base + "/" + names[|names|-1], Required)
  }

  function ItemIssues(compile: Compile, schema: Schema, items: seq<Value>, path: string): seq<Issue>
    decreases schema, 3, |items|
  {
    if items == [] then []
    else
      ItemIssues(compile, schema, items[..|items|-1], path) +
      Issues(compile, schema, items[|items|-1], path + "/" + Digits(|items| - 1))
  }

  function PropertyIssues(compile: Compile, ghost whole: Schema, properties: seq<Property>, v: Value,
                          base: string): seq<Issue>
    requires v.Object? && forall i :: 0 <= i < |properties| ==> properties[i].schema < whole
    decreases whole, 0, |properties|
  {
    if properties == [] then []
    else
      var p := properties[|properties|-1];
      PropertyIssues(compile, whole, properties[..|properties|-1], v, base) +
      if Field(v, p.name).Undefined? then [] else Issues(compile, p.schema, Field(v, p.name), base + "/" + p.name)
  }

  function TypeMatches(schema: Schema, v: Value): bool {
    schema.types.Some? ==> exists i :: 0 <= i < |schema.types.value| && HasType(v, schema.types.value[i])
  }

  // The problems of the value itself, in the order in which they are found.
  function OwnIssues(compile: Compile, schema: Schema, v: Value, path: string): seq<Issue> {
    (if schema.values.Some? then If(!Includes(schema.values.value, v), path, NotListed(schema.values.value)) else []) +
    NumberIssues(schema, v, path) + StringIssues(compile, schema, v, path)
  }

  // Its own problems, then those of its items or fields.
  function Issues(compile: Compile, schema: Schema, v: Value, path: string): seq<Issue>
    decreases schema, 2, 0
  {
    if !TypeMatches(schema, v) then [Issue(path, WrongType(schema.types.value, TypeOf(v)))]
    else
      OwnIssues(compile, schema, v, path) +
      (if v.Array? && schema.items.Some? then ItemIssues(compile, schema.items.value, v.items, path) else []) +
      (if v.Object?
       then RequiredIssues(schema.required, v, Base(path)) +
            PropertyIssues(compile, schema, schema.properties, v, Base(path))
       else [])
  }

  // --------------------------------------------------------------- conformance

  function Whole(k: int): Value {
    Number(k as real)
  }

  // The types of JSON Schema; an integer is a number without a fraction.
  ghost predicate OfType(v: Value, t: string) {
    || (t == "null" && v == Null)
    || (t == "boolean" && v.Boolean?)
    || (t == "number" && v.Number?)
    || (t == "integer" && exists k: int :: v == Whole(k))
    || (t == "string" && v.Text?)
    || (t == "array" && v.Array?)
    || (t == "object" && v.Object?)
    || (t == "undefined" && v == Undefined)
  }

  ghost predicate Typed(schema: Schema, v: Value) {
    schema.types.Some? ==> exists i :: 0 <= i < |schema.types.value| && OfType(v, schema.types.value[i])
  }

  // A name, an at sign, a domain, a dot and what follows, none of them empty or
  // with white space or another at sign.
  ghost predicate EmailText(s: string) {
    exists name, domain, top ::
      s == name + "@" + domain + "." + top && Unbroken(name) && Unbroken(domain) && Unbroken(top)
  }

  predicate Unbroken(s: string) {
    |s| > 0 && '@' !in s && forall c <- s :: !IsSpace(c)
  }

  // What each keyword asserts, independently of the others.
  ghost predicate Bounds(compile: Compile, schema: Schema, v: Value) {
    && (v.Number? && schema.minimum.Some? ==> schema.minimum.value <= v.n)
    && (v.Number? && schema.maximum.Some? ==> v.n <= schema.maximum.value)
    && (v.Text? && schema.minLength.Some? ==> schema.minLength.value <= |v.s| as real)
    && (v.Text? && schema.maxLength.Some? ==> |v.s| as real <= schema.maxLength.value)
    && (v.Text? && schema.pattern.Some? ==>
        compile(schema.pattern.value).Some? && compile(schema.pattern.value).value(v.s))
    && (v.Text? && schema.email ==> EmailText(v.s))
  }

  // JSON Schema: a value equal to one of those listed, each item, each field
  // present.
  ghost predicate Satisfies(compile: Compile, schema: Schema, v: Value)
    decreases schema
  {
    && Typed(schema, v) && (schema.values.Some? ==> v in schema.values.value) && Bounds(compile, schema, v)
    && (v.Array? && schema.items.Some? ==>
          forall i :: 0 <= i < |v.items| ==> Satisfies(compile, schema.items.value, v.items[i]))
    && (v.Object? ==> forall i :: 0 <= i < |schema.required| ==> !Field(v, schema.required[i]).Undefined?)
    && (v.Object? ==>
          forall i :: 0 <= i < |schema.properties| && !Field(v, schema.properties[i].name).Undefined? ==>
            Satisfies(compile, schema.properties[i].schema, Field(v, schema.properties[i].name)))
  }

  // Nowhere in the value an array or object meets a list of values.
  predicate NoCompoundListed(schema: Schema, v: Value)
    decreases schema
  {
    && (schema.values.Some? ==> !Compound(v))
    && (v.Array? && schema.items.Some? ==>
          forall i :: 0 <= i < |v.items| ==> NoCompoundListed(schema.items.value, v.items[i]))
    && (v.Object? ==>
          forall i :: 0 <= i < |schema.properties| && !Field(v, schema.properties[i].name).Undefined? ==>
            NoCompoundListed(schema.properties[i].schema, Field(v, schema.properties[i].name)))
  }

  // ------------------------------------------------------------------ results

  lemma {:induction false} RequiredEmpty(names: seq<string>, v: Value, base: string)
    requires v.Object?
    ensures RequiredIssues(names, v, base) == [] <==> forall i :: 0 <= i < |names| ==> !Field(v, names[i]).Undefined?
    decreases |names|
  {
    if names != [] {
      var front := names[..|names|-1];
      RequiredEmpty(front, v, base);
      assert forall i :: 0 <= i < |front| ==> front[i] == names[i];
    }
  }

  lemma {:induction false} ItemsEmpty(compile: Compile, schema: Schema, items: seq<Value>, path: string)
    ensures ItemIssues(compile, schema, items, path) == [] <==>
            forall i :: 0 <= i < |items| ==> Satisfies(compile, schema, items[i]) && NoCompoundListed(schema, items[i])
    decreases schema, 3, |items|
  {
    if items != [] {
      var front, last := items[..|items|-1], items[|items|-1];
      ItemsEmpty(compile, schema, front, path);
      ValidIffSatisfies(compile, schema, last, path + "/" + Digits(|items| - 1));
      hide Issues, Satisfies, NoCompoundListed;
      assert forall i :: 0 <= i < |front| ==> front[i] == items[i];
    }
  }

  ghost predicate PropertyHolds(compile: Compile, p: Property, v: Value)
    requires v.Object?
  {
    !Field(v, p.name).Undefined? ==>
      Satisfies(compile, p.schema, Field(v, p.name)) && NoCompoundListed(p.schema, Field(v, p.name))
  }

  function LastPropertyIssues(compile: Compile, p: Property, v: Value, base: string): seq<Issue>
    requires v.Object?
  {
    if Field(v, p.name).Undefined? then [] else Issues(compile, p.schema, Field(v, p.name), base + "/" + p.name)
  }

  lemma PropertyStep(compile: Compile, whole: Schema, properties: seq<Property>, v: Value, base: string)
    requires v.Object? && properties != [] && forall i :: 0 <= i < |properties| ==> properties[i].schema < whole
    ensures PropertyIssues(compile, whole, properties, v, base)
            == PropertyIssues(compile, whole, properties[..|properties|-1], v, base)
               + LastPropertyIssues(compile, properties[|properties|-1], v, base)
  {
    hide Issues, Field;
  }

  ghost predicate AllHold(compile: Compile, properties: seq<Property>, v: Value)
    requires v.Object?
  {
    forall i :: 0 <= i < |properties| ==> PropertyHolds(compile, properties[i], v)
  }

  lemma AllHoldStep(compile: Compile, properties: seq<Property>, v: Value)
    requires v.Object? && properties != []
    ensures AllHold(compile, properties, v) <==>
            AllHold(compile, properties[..|properties|-1], v) && PropertyHolds(compile, properties[|properties|-1], v)
  {
    hide PropertyHolds;
    assert properties == properties[..|properties|-1] + [properties[|properties|-1]];
  }

  lemma {:induction false} PropertyEmpty(compile: Compile, whole: Schema, p: Property, v: Value, base: string)
    requires v.Object? && p.schema < whole
    ensures LastPropertyIssues(compile, p, v, base) == [] <==> PropertyHolds(compile, p, v)
    decreases whole, 0, 0
  {
    if !Field(v, p.name).Undefined? { ValidIffSatisfies(compile, p.schema, Field(v, p.name), base + "/" + p.name); }
    hide Issues, Satisfies, NoCompoundListed, Field;
  }

  lemma {:induction false} PropertiesEmpty(compile: Compile, whole: Schema, properties: seq<Property>, v: Value,
                                           base: string)
    requires v.Object? && forall i :: 0 <= i < |properties| ==> properties[i].schema < whole
    ensures PropertyIssues(compile, whole, properties, v, base) == [] <==> AllHold(compile, properties, v)
    decreases whole, 0, |properties|
  {
    if properties != [] {
      PropertyStep(compile, whole, properties, v, base);
      AllHoldStep(compile, properties, v);
      hide PropertyIssues, AllHold, PropertyHolds, LastPropertyIssues;
      PropertiesEmpty(compile, whole, properties[..|properties|-1], v, base);
      PropertyEmpty(compile, whole, properties[|properties|-1], v, base);
    }
  }

  lemma HasTypeIff(v: Value, t: string)
    ensures HasType(v, t) <==> OfType(v, t)
  {
    if t == "integer" && v.Number? && IsInteger(v.n) { assert v == Whole(v.n.Floor); }
  }

  lemma TypedIff(schema: Schema, v: Value)
    ensures TypeMatches(schema, v) <==> Typed(schema, v)
  {
    hide HasType, OfType;
    if schema.types.Some? {
      forall i | 0 <= i < |schema.types.value|
        ensures HasType(v, schema.types.value[i]) <==> OfType(v, schema.types.value[i])
      {
        HasTypeIff(v, schema.types.value[i]);
      }
    }
  }

  lemma EmailIff(s: string)
    ensures IsEmail(s) <==> EmailText(s)
  {
    hide Unbroken;
    if IsEmail(s) {
      var i, j :| 0 <= i < j < |s| && s[i] == '@' && s[j] == '.' &&
                  PlainText(s[..i]) && PlainText(s[i+1..j]) && PlainText(s[j+1..]);
      EmailParts(s, i, j);
    }
    if EmailText(s) {
      var name, domain, top :|
        s == name + "@" + domain + "." + top && Unbroken(name) && Unbroken(domain) && Unbroken(top);
      EmailFound(name, domain, top);
    }
  }

  lemma EmailParts(s: string, i: nat, j: nat)
    requires i < j < |s| && s[i] == '@' && s[j] == '.'
    requires PlainText(s[..i]) && PlainText(s[i+1..j]) && PlainText(s[j+1..])
    ensures EmailText(s)
  {
    PlainUnbroken(s[..i]);
    PlainUnbroken(s[i+1..j]);
    PlainUnbroken(s[j+1..]);
    hide PlainText, Unbroken;
    assert s == s[..i] + "@" + s[i+1..j] + "." + s[j+1..];
  }

  lemma EmailFound(name: string, domain: string, top: string)
    requires Unbroken(name) && Unbroken(domain) && Unbroken(top)
    ensures IsEmail(name + "@" + domain + "." + top)
  {
    PlainUnbroken(name);
    PlainUnbroken(domain);
    PlainUnbroken(top);
    var s := name + "@" + domain + "." + top;
    var i, j := |name|, |name| + 1 + |domain|;
    assert s[..i] == name && s[i+1..j] == domain && s[j+1..] == top;
    hide PlainText, Unbroken;
    assert s[i] == '@' && s[j] == '.';
  }

  lemma PlainUnbroken(s: string)
    ensures PlainText(s) <==> Unbroken(s)
  {}

  lemma LeavesEmpty(compile: Compile, schema: Schema, v: Value, path: string)
    ensures OwnIssues(compile, schema, v, path) == [] <==>
            (schema.values.Some? ==> Includes(schema.values.value, v)) && Bounds(compile, schema, v)
  {
    if v.Text? { EmailIff(v.s); }
    hide IsEmail, EmailText;
  }

  // The validator accepts a value exactly when it satisfies the schema and no
  // array or object met a list of values, which it never matches.
  lemma {:induction false} ValidIffSatisfies(compile: Compile, schema: Schema, v: Value, path: string)
    ensures Issues(compile, schema, v, path) == [] <==> Satisfies(compile, schema, v) && NoCompoundListed(schema, v)
    decreases schema, 2, 0
  {
    LeavesEmpty(compile, schema, v, path);
    if v.Array? && schema.items.Some? { ItemsEmpty(compile, schema.items.value, v.items, path); }
    if v.Object? {
      RequiredEmpty(schema.required, v, Base(path));
      PropertiesEmpty(compile, schema, schema.properties, v, Base(path));
    }
    IssuesStep(compile, schema, v, path);
    SatisfiesStep(compile, schema, v);
    TypedIff(schema, v);
    hide Issues, Satisfies, NoCompoundListed, OwnIssues, ItemIssues, RequiredIssues, PropertyIssues, AllHold, Bounds,
      TypeMatches, Typed, Base, Includes;
  }

  lemma IssuesStep(compile: Compile, schema: Schema, v: Value, path: string)
    ensures Issues(compile, schema, v, path) == [] <==>
            TypeMatches(schema, v) && OwnIssues(compile, schema, v, path) == [] &&
            (v.Array? && schema.items.Some? ==> ItemIssues(compile, schema.items.value, v.items, path) == []) &&
            (v.Object? ==> RequiredIssues(schema.required, v, Base(path)) == [] &&
                           PropertyIssues(compile, schema, schema.properties, v, Base(path)) == [])
  {}

  lemma SatisfiesStep(compile: Compile, schema: Schema, v: Value)
    ensures Satisfies(compile, schema, v) && NoCompoundListed(schema, v) <==>
            Typed(schema, v) && (schema.values.Some? ==> Includes(schema.values.value, v)) &&
            Bounds(compile, schema, v) &&
            (v.Array? && schema.items.Some? ==>
               forall i :: 0 <= i < |v.items| ==>
                 Satisfies(compile, schema.items.value, v.items[i]) &&
                   NoCompoundListed(schema.items.value, v.items[i])) &&
            (v.Object? ==> forall i :: 0 <= i < |schema.required| ==> !Field(v, schema.required[i]).Undefined?) &&
            (v.Object? ==> AllHold(compile, schema.properties, v))
  {}

  // No schema inside lists an array or object.
  predicate ScalarLists(schema: Schema)
    decreases schema
  {
    && (schema.values.Some? ==> forall i :: 0 <= i < |schema.values.value| ==> !Compound(schema.values.value[i]))
    && (schema.items.Some? ==> ScalarLists(schema.items.value))
    && forall i :: 0 <= i < |schema.properties| ==> ScalarLists(schema.properties[i].schema)
  }

  lemma {:induction false} ScalarListsEnough(compile: Compile, schema: Schema, v: Value)
    requires ScalarLists(schema) && Satisfies(compile, schema, v)
    ensures NoCompoundListed(schema, v)
    decreases schema
  {
    if v.Array? && schema.items.Some? {
      forall i | 0 <= i < |v.items|
        ensures NoCompoundListed(schema.items.value, v.items[i])
      {
        ScalarListsEnough(compile, schema.items.value, v.items[i]);
      }
    }
    if v.Object? {
      forall i | 0 <= i < |schema.properties| && !Field(v, schema.properties[i].name).Undefined?
        ensures NoCompoundListed(schema.properties[i].schema, Field(v, schema.properties[i].name))
      {
        ScalarListsEnough(compile, schema.properties[i].schema, Field(v, schema.properties[i].name));
      }
    }
    hide Bounds, Typed;
  }

  // With scalar lists only, the validator decides the schema.
  lemma ScalarListsDecide(compile: Compile, schema: Schema, v: Value, path: string)
    requires ScalarLists(schema)
    ensures Issues(compile, schema, v, path) == [] <==> Satisfies(compile, schema, v)
  {
    ValidIffSatisfies(compile, schema, v, path);
    if Satisfies(compile, schema, v) { ScalarListsEnough(compile, schema, v); }
    hide Issues, Satisfies, NoCompoundListed;
  }

  // A listed array is refused although it is equal to a listed value.
  lemma ListedArrayRefused(compile: Compile, path: string)
    ensures var schema := Schema(None, Some([Array([])]), None, None, None, None, None, false, None, [], []);
            Satisfies(compile, schema, Array([])) && Issues(compile, schema, Array([]), path) != []
  {}

  // ------------------------------------------------------------------- paths

  // The path itself or one below it; all paths are below the root, "/".
  predicate Under(at: string, path: string) {
    at == path || path + "/" <= at || (path == "/" && "/" <= at)
  }

  predicate AllUnder(issues: seq<Issue>, path: string) {
    forall i :: 0 <= i < |issues| ==> Under(issues[i].path, path)
  }

  lemma UnderConcat(a: seq<Issue>, b: seq<Issue>, path: string)
    requires AllUnder(a, path) && AllUnder(b, path)
    ensures AllUnder(a + b, path)
  {}

  lemma UnderTrans(at: string, path: string, name: string)
    requires Under(at, path + "/" + name)
    ensures Under(at, path)
  {
    assert path + "/" <= path + "/" + name;
    assert path + "/" + name <= at;
  }

  lemma UnderItem(issues: seq<Issue>, path: string, index: string)
    requires AllUnder(issues, path + "/" + index)
    ensures AllUnder(issues, path)
  {
    forall i | 0 <= i < |issues|
      ensures Under(issues[i].path, path)
    {
      UnderTrans(issues[i].path, path, index);
    }
  }

  // What lies below a field of the value at a path lies below the path.
  lemma UnderField(issues: seq<Issue>, path: string, name: string)
    requires AllUnder(issues, Base(path) + "/" + name)
    ensures AllUnder(issues, path)
  {
    if path == "/" {
      assert "" + "/" == "/" <= "/" + name;
    } else {
      UnderItem(issues, path, name);
    }
  }

  lemma {:induction false} RequiredUnder(names: seq<string>, v: Value, path: string)
    requires v.Object?
    ensures AllUnder(RequiredIssues(names, v, Base(path)), path)
    decreases |names|
  {
    if names != [] {
      var last := names[|names|-1];
      RequiredUnder(names[..|names|-1], v, path);
      var issue := If(Field(v, last).Undefined?, Base(path) + "/" + last, Required);
      UnderField(issue, path, last);
      UnderConcat(RequiredIssues(names[..|names|-1], v, Base(path)), issue, path);
    }
  }

  lemma {:induction false} ItemsUnder(compile: Compile, schema: Schema, items: seq<Value>, path: string)
    ensures AllUnder(ItemIssues(compile, schema, items, path), path)
    decreases schema, 3, |items|
  {
    if items != [] {
      var at := "/" + Digits(|items| - 1);
      ItemsUnder(compile, schema, items[..|items|-1], path);
      IssuesUnderPath(compile, schema, items[|items|-1], path + "/" + Digits(|items| - 1));
      hide Issues, AllUnder, Digits;
      assert path + "/" + Digits(|items| - 1) == path + at;
      UnderItem(Issues(compile, schema, items[|items|-1], path + at), path, Digits(|items| - 1));
      UnderConcat(ItemIssues(compile, schema, items[..|items|-1], path),
                  Issues(compile, schema, items[|items|-1], path + at), path);
    }
  }

  lemma {:induction false} PropertiesUnder(compile: Compile, whole: Schema, properties: seq<Property>, v: Value,
                                           path: string)
    requires v.Object? && forall i :: 0 <= i < |properties| ==> properties[i].schema < whole
    ensures AllUnder(PropertyIssues(compile, whole, properties, v, Base(path)), path)
    decreases whole, 0, |properties|
  {
    if properties != [] {
      var p := properties[|properties|-1];
      PropertiesUnder(compile, whole, properties[..|properties|-1], v, path);
      if !Field(v, p.name).Undefined? {
        var at := Base(path) + "/" + p.name;
        IssuesUnderPath(compile, p.schema, Field(v, p.name), at);
        hide Issues, AllUnder, Base;
        UnderField(Issues(compile, p.schema, Field(v, p.name), at), path, p.name);
        UnderConcat(PropertyIssues(compile, whole, properties[..|properties|-1], v, Base(path)),
                    Issues(compile, p.schema, Field(v, p.name), at), path);
      } else {
        hide Issues;
        assert PropertyIssues(compile, whole, properties, v, Base(path))
            == PropertyIssues(compile, whole, properties[..|properties|-1], v, Base(path)) + [];
      }
    }
  }

  // Every issue is reported at the path of the value or below it.
  lemma {:induction false} IssuesUnderPath(compile: Compile, schema: Schema, v: Value, path: string)
    ensures AllUnder(Issues(compile, schema, v, path), path)
    decreases schema, 2, 0
  {
    if TypeMatches(schema, v) {
      OwnUnder(compile, schema, v, path);
      var own := OwnIssues(compile, schema, v, path);
      var items :=
        if v.Array? && schema.items.Some? then ItemIssues(compile, schema.items.value, v.items, path) else [];
      if v.Array? && schema.items.Some? { ItemsUnder(compile, schema.items.value, v.items, path); }
      assert AllUnder(items, path);
      var fields :=
        if v.Object?
        then RequiredIssues(schema.required, v, Base(path)) +
             PropertyIssues(compile, schema, schema.properties, v, Base(path))
        else [];
      if v.Object? {
        RequiredUnder(schema.required, v, path);
        PropertiesUnder(compile, schema, schema.properties, v, path);
        UnderConcat(RequiredIssues(schema.required, v, Base(path)),
                    PropertyIssues(compile, schema, schema.properties, v, Base(path)), path);
      }
      assert AllUnder(fields, path);
      hide AllUnder, OwnIssues, ItemIssues, RequiredIssues, PropertyIssues;
      UnderConcat(own, items, path);
      UnderConcat(own + items, fields, path);
    }
  }

  lemma OwnUnder(compile: Compile, schema: Schema, v: Value, path: string)
    ensures AllUnder(OwnIssues(compile, schema, v, path), path)
  {
    hide IsEmail, Includes;
    var listed :=
      if schema.values.Some? then If(!Includes(schema.values.value, v), path, NotListed(schema.values.value)) else [];
    var numbers, strings := NumberIssues(schema, v, path), StringIssues(compile, schema, v, path);
    assert AllUnder(listed, path);
    NumberUnder(schema, v, path);
    StringUnder(compile, schema, v, path);
    hide AllUnder, NumberIssues, StringIssues;
    UnderConcat(listed, numbers, path);
    UnderConcat(listed + numbers, strings, path);
  }

  lemma NumberUnder(schema: Schema, v: Value, path: string)
    ensures AllUnder(NumberIssues(schema, v, path), path)
  {}

  lemma StringUnder(compile: Compile, schema: Schema, v: Value, path: string)
    ensures AllUnder(StringIssues(compile, schema, v, path), path)
  {}

  // ---------------------------------------------------------------- the validator

  class IssueList {
    var issues: seq<Issue>

    constructor ()
      ensures issues == []
    {
      issues := [];
    }

    method Push(issue: Issue)
      modifies this
      ensures issues == old(issues) + [issue]
    {
      issues := issues + [issue];
    }
  }

  method ValidateNumber(schema: Schema, v: Value, path: string, list: IssueList)
    modifies list
    ensures list.issues == old(list.issues) + NumberIssues(schema, v, path)
  {
    if !v.Number? { return; }
    if schema.minimum.Some? && v.n < schema.minimum.value { list.Push(Issue(path, TooSmall(schema.minimum.value))); }
    if schema.maximum.Some? && v.n > schema.maximum.value { list.Push(Issue(path, TooLarge(schema.maximum.value))); }
  }

  method ValidateText(compile: Compile, schema: Schema, v: Value, path: string, list: IssueList)
    modifies list
    ensures list.issues == old(list.issues) + StringIssues(compile, schema, v, path)
  {
    hide IsEmail;
    if !v.Text? { return; }
    ValidateLength(schema, v, path, list);
    ValidatePattern(compile, schema, v, path, list);
    if schema.email && !IsEmail(v.s) { list.Push(Issue(path, NotAnEmail)); }
  }

  method ValidateLength(schema: Schema, v: Value, path: string, list: IssueList)
    requires v.Text?
    modifies list
    ensures list.issues == old(list.issues) + LengthIssues(schema, v, path)
  {
    if schema.minLength.Some? && (|v.s| as real) < schema.minLength.value {
      list.Push(Issue(path, TooShort(schema.minLength.value)));
    }
    if schema.maxLength.Some? && (|v.s| as real) > schema.maxLength.value {
      list.Push(Issue(path, TooLong(schema.maxLength.value)));
    }
  }

  method ValidatePattern(compile: Compile, schema: Schema, v: Value, path: string, list: IssueList)
    requires v.Text?
    modifies list
    ensures list.issues == old(list.issues) + PatternIssues(compile, schema, v, path)
  {
    if schema.pattern.None? { return; }
    var regex := compile(schema.pattern.value);
    if regex.None? {
      list.Push(Issue(path, InvalidPattern(schema.pattern.value)));
    } else if !regex.value(v.s) {
      list.Push(Issue(path, NoMatch(schema.pattern.value)));
    }
  }

  method ValidateItems(compile: Compile, schema: Schema, items: seq<Value>, path: string, list: IssueList)
    modifies list
    ensures list.issues == old(list.issues) + ItemIssues(compile, schema, items, path)
    decreases schema, 3
  {
    hide Issues, Digits;
    var i := 0;
    while i < |items|
      invariant 0 <= i <= |items| && list.issues == old(list.issues) + ItemIssues(compile, schema, items[..i], path)
    {
      assert items[..i+1][..i] == items[..i];
      ValidateValue(compile, schema, items[i], path + "/" + Digits(i), list);
      i := i + 1;
    }
    assert items[..i] == items;
  }

  method ValidateRequired(names: seq<string>, v: Value, base: string, list: IssueList)
    requires v.Object?
    modifies list
    ensures list.issues == old(list.issues) + RequiredIssues(names, v, base)
  {
    var i := 0;
    while i < |names|
      invariant 0 <= i <= |names| && list.issues == old(list.issues) + RequiredIssues(names[..i], v, base)
    {
      assert names[..i+1][..i] == names[..i];
      if Field(v, names[i]).Undefined? { list.Push(Issue(base + "/" + names[i], Required)); }
      i := i + 1;
    }
    assert names[..i] == names;
  }

  method ValidateProperties(compile: Compile, schema: Schema, v: Value, base: string, list: IssueList)
    requires v.Object?
    modifies list
    ensures list.issues == old(list.issues) + PropertyIssues(compile, schema, schema.properties, v, base)
    decreases schema, 1
  {
    hide Issues;
    var i := 0;
    while i < |schema.properties|
      invariant 0 <= i <= |schema.properties|
      invariant list.issues == old(list.issues) + PropertyIssues(compile, schema, schema.properties[..i], v, base)
    {
      assert schema.properties[..i+1][..i] == schema.properties[..i];
      var p := schema.properties[i];
      if !Field(v, p.name).Undefined? { ValidateValue(compile, p.schema, Field(v, p.name), base + "/" + p.name, list); }
      i := i + 1;
    }
    assert schema.properties[..i] == schema.properties;
  }

  method ValidateOwn(compile: Compile, schema: Schema, v: Value, path: string, list: IssueList)
    modifies list
    ensures list.issues == old(list.issues) + OwnIssues(compile, schema, v, path)
  {
    hide NumberIssues, StringIssues, Includes;
    if schema.values.Some? && !Includes(schema.values.value, v) {
      list.Push(Issue(path, NotListed(schema.values.value)));
    }
    ValidateNumber(schema, v, path, list);
    ValidateText(compile, schema, v, path, list);
  }

  // The accumulator grows by exactly the issues of the value.
  method ValidateValue(compile: Compile, schema: Schema, v: Value, path: string, list: IssueList)
    modifies list
    ensures list.issues == old(list.issues) + Issues(compile, schema, v, path)
    decreases schema, 2
  {
    hide OwnIssues, ItemIssues, RequiredIssues, PropertyIssues, Base, HasType;
    if !TypeMatches(schema, v) {
      list.Push(Issue(path, WrongType(schema.types.value, TypeOf(v))));
      return;
    }
    ValidateOwn(compile, schema, v, path, list);
    if v.Array? && schema.items.Some? {
      ValidateItems(compile, schema.items.value, v.items, path, list);
    } else if v.Object? {
      ValidateRequired(schema.required, v, Base(path), list);
      ValidateProperties(compile, schema, v, Base(path), list);
    }
  }

  method ValidateAgainstSchema(compile: Compile, schema: Schema, v: Value, path: string)
    returns (valid: bool, issues: seq<Issue>)
    ensures valid <==> Satisfies(compile, schema, v) && NoCompoundListed(schema, v)
    ensures issues == Issues(compile, schema, v, path) && AllUnder(issues, path)
  {
    var list := new IssueList();
    ValidateValue(compile, schema, v, path, list);
    ValidIffSatisfies(compile, schema, v, path);
    IssuesUnderPath(compile, schema, v, path);
    hide Issues, Satisfies, NoCompoundListed, AllUnder;
    issues := list.issues;
    valid := issues == [];
  }
}
