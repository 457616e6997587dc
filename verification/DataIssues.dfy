/** Which issues a value has: one for each thing that is wrong at a place the schema comes to, and no other. */
module DataIssues {
  import opened Basics
  import opened JsText
  import opened DataValidator

  // The path of a part of the value; the root is "/".
  function Below(path: string, part: string): string {
    if path == "/" then "/" + part else path + "/" + part
  }

  // The bounds a value of the right type breaks.
  ghost predicate BoundBroken(compile: Compile, schema: Schema, v: Value, p: Problem) {
    match p
    case TooSmall(m) => v.Number? && schema.minimum == Some(m) && v.n < m
    case TooLarge(m) => v.Number? && schema.maximum == Some(m) && v.n > m
    case TooShort(m) => v.Text? && schema.minLength == Some(m) && |v.s| as real < m
    case TooLong(m) => v.Text? && schema.maxLength == Some(m) && |v.s| as real > m
    case InvalidPattern(x) => v.Text? && schema.pattern == Some(x) && compile(x).None?
    case NoMatch(x) => v.Text? && schema.pattern == Some(x) && compile(x).Some? && !compile(x).value(v.s)
    case NotAnEmail => v.Text? && schema.email && !EmailText(v.s)
    case _ => false
  }

  // A required field is absent.
  predicate Missing(v: Value, path: string, name: string, issue: Issue)
    requires v.Object?
  {
    (name in v.fields ==> v.fields[name].Undefined?) && issue == Issue(Below(path, name), Required)
  }

  // What is wrong with the value itself; of one of the wrong type only that.
  ghost predicate Broken(compile: Compile, schema: Schema, v: Value, path: string, issue: Issue) {
    if !Typed(schema, v) then issue == Issue(path, WrongType(schema.types.value, TypeOf(v)))
    else
      || (schema.values.Some? && !(v in schema.values.value && !v.Array? && !v.Object?) &&
          issue == Issue(path, NotListed(schema.values.value)))
      || (issue.path == path && BoundBroken(compile, schema, v, issue.problem))
      || (v.Object? && exists i :: 0 <= i < |schema.required| && Missing(v, path, schema.required[i], issue))
  }

  // Or with one of its items, or with a field that is present, by the schema
  // of that part; parts of a value of the wrong type are not looked at.
  ghost predicate BrokenIn(compile: Compile, schema: Schema, v: Value, path: string, issue: Issue)
    decreases schema
  {
    || Broken(compile, schema, v, path, issue)
    || (Typed(schema, v) && v.Array? && schema.items.Some? &&
        exists i :: 0 <= i < |v.items| &&
                    BrokenIn(compile, schema.items.value, v.items[i], ItemPath(path, i), issue))
    || (Typed(schema, v) && v.Object? &&
        exists k :: 0 <= k < |schema.properties| && schema.properties[k].name in v.fields &&
                    !v.fields[schema.properties[k].name].Undefined? &&
                    BrokenIn(compile, schema.properties[k].schema, v.fields[schema.properties[k].name],
                             Below(path, schema.properties[k].name), issue))
  }

  // Items of the root are reported below "//".
  function ItemPath(path: string, i: nat): string {
    path + "/" + Digits(i)
  }

  lemma NumbersAre(compile: Compile, schema: Schema, v: Value, path: string, issue: Issue)
    requires v.Number?
    ensures issue in NumberIssues(schema, v, path) <==>
            issue.path == path && BoundBroken(compile, schema, v, issue.problem)
  {}

  lemma LengthsAre(compile: Compile, schema: Schema, v: Value, path: string, issue: Issue)
    requires v.Text?
    ensures issue in LengthIssues(schema, v, path) <==>
            issue.path == path && BoundBroken(compile, schema, v, issue.problem) &&
            (issue.problem.TooShort? || issue.problem.TooLong?)
  {
    hide EmailText;
  }

  lemma PatternsAre(compile: Compile, schema: Schema, v: Value, path: string, issue: Issue)
    requires v.Text?
    ensures issue in PatternIssues(compile, schema, v, path) <==>
            issue.path == path && BoundBroken(compile, schema, v, issue.problem) &&
            (issue.problem.InvalidPattern? || issue.problem.NoMatch?)
  {
    hide EmailText;
  }

  lemma TextAre(compile: Compile, schema: Schema, v: Value, path: string, issue: Issue)
    requires v.Text?
    ensures issue in StringIssues(compile, schema, v, path) <==>
            issue.path == path && BoundBroken(compile, schema, v, issue.problem)
  {
    LengthsAre(compile, schema, v, path, issue);
    PatternsAre(compile, schema, v, path, issue);
    EmailIff(v.s);
    hide IsEmail, EmailText, LengthIssues, PatternIssues;
    TextProblems(compile, schema, v, issue.problem);
    assert BoundBroken(compile, schema, v, NotAnEmail) <==> schema.email && !EmailText(v.s);
    hide BoundBroken;
  }

  lemma TextProblems(compile: Compile, schema: Schema, v: Value, p: Problem)
    requires v.Text?
    ensures BoundBroken(compile, schema, v, p) ==>
              p.TooShort? || p.TooLong? || p.InvalidPattern? || p.NoMatch? || p.NotAnEmail?
  {}

  lemma OwnAreBroken(compile: Compile, schema: Schema, v: Value, path: string, issue: Issue)
    requires Typed(schema, v)
    ensures Broken(compile, schema, v, path, issue) <==>
            issue in OwnIssues(compile, schema, v, path) ||
            (v.Object? && issue in RequiredIssues(schema.required, v, Base(path)))
  {
    hide Typed;
    if v.Text? { TextAre(compile, schema, v, path, issue); }
    if v.Number? { NumbersAre(compile, schema, v, path, issue); }
    if !v.Text? && !v.Number? { NoBounds(compile, schema, v, issue.problem); }
    if v.Object? { RequiredAre(schema.required, v, path, issue); }
    hide RequiredIssues, BoundBroken, LengthIssues, PatternIssues;
  }

  lemma NoBounds(compile: Compile, schema: Schema, v: Value, p: Problem)
    requires !v.Text? && !v.Number?
    ensures !BoundBroken(compile, schema, v, p)
  {}

  lemma {:induction false} RequiredAre(names: seq<string>, v: Value, path: string, issue: Issue)
    requires v.Object?
    ensures issue in RequiredIssues(names, v, Base(path)) <==>
            exists i :: 0 <= i < |names| && Missing(v, path, names[i], issue)
    decreases |names|
  {
    if names != [] {
      var n := |names| - 1;
      RequiredAre(names[..n], v, path, issue);
      assert Base(path) + "/" + names[n] == Below(path, names[n]);
      assert Missing(v, path, names[n], issue) <==>
             issue in If(Field(v, names[n]).Undefined?, Base(path) + "/" + names[n], Required);
      hide Missing, If;
      assert names == names[..n] + [names[n]];
    }
  }

  lemma LastItem(compile: Compile, schema: Schema, items: seq<Value>, path: string)
    requires items != []
    ensures var n := |items| - 1;
            ItemIssues(compile, schema, items, path) ==
            ItemIssues(compile, schema, items[..n], path) + Issues(compile, schema, items[n], ItemPath(path, n))
  {
    hide Issues, Digits;
  }

  ghost predicate ItemBroken(compile: Compile, schema: Schema, item: Value, path: string, i: nat, issue: Issue) {
    BrokenIn(compile, schema, item, ItemPath(path, i), issue)
  }

  lemma {:induction false} ItemsAre(compile: Compile, schema: Schema, items: seq<Value>, path: string, issue: Issue)
    ensures issue in ItemIssues(compile, schema, items, path) <==>
            exists i :: 0 <= i < |items| && ItemBroken(compile, schema, items[i], path, i, issue)
    decreases schema, 3, |items|
  {
    if items != [] {
      var n := |items| - 1;
      var front := items[..n];
      ItemsAre(compile, schema, front, path, issue);
      IssuesAreBroken(compile, schema, items[n], ItemPath(path, n), issue);
      LastItem(compile, schema, items, path);
      assert ItemBroken(compile, schema, items[n], path, n, issue) <==>
             issue in Issues(compile, schema, items[n], ItemPath(path, n));
      hide ItemIssues, Issues, BrokenIn, ItemPath, ItemBroken;
      assert forall i :: 0 <= i < n ==> front[i] == items[i];
      if exists i :: 0 <= i < n && ItemBroken(compile, schema, items[i], path, i, issue) {
        var i :| 0 <= i < n && ItemBroken(compile, schema, items[i], path, i, issue);
        assert ItemBroken(compile, schema, front[i], path, i, issue);
      }
    }
  }

  ghost predicate FieldBroken(compile: Compile, p: Property, v: Value, path: string, issue: Issue)
    requires v.Object?
  {
    p.name in v.fields && !v.fields[p.name].Undefined? &&
    BrokenIn(compile, p.schema, v.fields[p.name], Below(path, p.name), issue)
  }

  lemma {:induction false} PropertyIs(compile: Compile, whole: Schema, p: Property, v: Value, path: string,
                                      issue: Issue)
    requires v.Object? && p.schema < whole
    ensures issue in LastPropertyIssues(compile, p, v, Base(path)) <==> FieldBroken(compile, p, v, path, issue)
    decreases whole, 0, 0
  {
    if !Field(v, p.name).Undefined? {
      IssuesAreBroken(compile, p.schema, Field(v, p.name), Below(path, p.name), issue);
    }
    assert Base(path) + "/" + p.name == Below(path, p.name);
    hide Issues, BrokenIn;
  }

  lemma {:induction false} PropertiesAre(compile: Compile, whole: Schema, properties: seq<Property>, v: Value,
                                         path: string, issue: Issue)
    requires v.Object? && forall i :: 0 <= i < |properties| ==> properties[i].schema < whole
    ensures issue in PropertyIssues(compile, whole, properties, v, Base(path)) <==>
            exists k :: 0 <= k < |properties| && FieldBroken(compile, properties[k], v, path, issue)
    decreases whole, 0, |properties|
  {
    if properties != [] {
      var n := |properties| - 1;
      PropertyStep(compile, whole, properties, v, Base(path));
      PropertiesAre(compile, whole, properties[..n], v, path, issue);
      PropertyIs(compile, whole, properties[n], v, path, issue);
      hide PropertyIssues, LastPropertyIssues, FieldBroken;
      assert properties == properties[..n] + [properties[n]];
    }
  }

  // The validator reports an issue exactly if it is wrong at some place the
  // schema comes to.
  lemma {:induction false} IssuesAreBroken(compile: Compile, schema: Schema, v: Value, path: string, issue: Issue)
    ensures issue in Issues(compile, schema, v, path) <==> BrokenIn(compile, schema, v, path, issue)
    decreases schema, 2, 0
  {
    TypedIff(schema, v);
    hide TypeMatches, Typed;
    if TypeMatches(schema, v) {
      OwnAreBroken(compile, schema, v, path, issue);
      if v.Array? && schema.items.Some? {
        ItemsAre(compile, schema.items.value, v.items, path, issue);
        assert forall i :: 0 <= i < |v.items| ==>
          (ItemBroken(compile, schema.items.value, v.items[i], path, i, issue) <==>
           BrokenIn(compile, schema.items.value, v.items[i], ItemPath(path, i), issue));
      }
      if v.Object? { PropertiesAre(compile, schema, schema.properties, v, path, issue); }
    }
    hide OwnIssues, ItemIssues, RequiredIssues, PropertyIssues, Broken, Base;
  }
}
