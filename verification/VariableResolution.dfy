/** Values of variables on a record.  A value may be a template over other variables, each of which is
    resolved in turn and passed through the expression of its variable. */
module VariableResolution {
  import opened Basics

  // `System` is the built-in variable `tower`; `Missing` is a variable with no value anywhere.
  datatype Value = Missing | Text(text: string) | System

  type Values = map<string, Value>

  /** What a record sees: its own values, the global ones, and how templates and expressions work.
      `modify` is the outcome of the expression of a variable; a failing expression leaves the value. */
  datatype Scope = Scope(
    own: map<string, string>,
    global: map<string, string>,
    mentions: string -> seq<string>,
    render: (string, Values) -> string,
    expressions: map<string, Value -> Value>)

  predicate Contains(s: string, t: string) {
    t <= s || (s != [] && Contains(s[1..], t))
  }

  // The value before rendering: the system value, else the record's, else the global one.
  function Raw(c: Scope, x: string): Value {
    if x == "tower" then System
    else if x in c.own then Text(c.own[x])
    else if x in c.global then Text(c.global[x])
    else Missing
  }

  predicate IsTemplate(v: Value) {
    v.Text? && Contains(v.text, "{{ ")
  }

  // The variables that the value of `x` is rendered with.
  function Needs(c: Scope, x: string): seq<string> {
    if IsTemplate(Raw(c, x)) then c.mentions(Raw(c, x).text) else []
  }

  // Empty values are left alone.
  function Modified(c: Scope, x: string, v: Value): Value {
    if v == Missing || v == Text("") || x !in c.expressions then v else c.expressions[x](v)
  }

  /** The variables in `rank` need none but each other, and those of lower rank only. */
  ghost predicate Acyclic(c: Scope, rank: map<string, nat>) {
    forall x, y :: x in rank && y in Needs(c, x) ==> y in rank && rank[y] < rank[x]
  }

  // It covers what is asked for.
  ghost predicate Covers(rank: map<string, nat>, references: seq<string>) {
    forall x :: x in references ==> x in rank
  }

  // --- Meaning -------------------------------------------------------------------------------

  /** The value of one variable, or `None` if resolving it raises an error. */
  ghost function Resolve(c: Scope, rank: map<string, nat>, x: string): Option<Value>
    requires Acyclic(c, rank) && x in rank
    decreases rank[x], 1
  {
    var v := Rendered(c, rank, x);
    if v.None? then None else Some(Modified(c, x, v.value))
  }

  // The same before the expression of `x` is applied.  A template that mentions no variable is an error.
  ghost function Rendered(c: Scope, rank: map<string, nat>, x: string): Option<Value>
    requires Acyclic(c, rank) && x in rank
    decreases rank[x], 0
  {
    if !IsTemplate(Raw(c, x)) then Some(Raw(c, x))
    else if Needs(c, x) == [] then None
    else if exists y :: y in Needs(c, x) && Resolve(c, rank, y).None? then None
    else Some(Text(c.render(Raw(c, x).text, map y | y in Needs(c, x) :: Resolve(c, rank, y).value)))
  }

  ghost function Wanted(c: Scope, rank: map<string, nat>, x: string, applyModifiers: bool): Option<Value>
    requires Acyclic(c, rank) && x in rank
  {
    if applyModifiers then Resolve(c, rank, x) else Rendered(c, rank, x)
  }

  // --- The code ------------------------------------------------------------------------------

  // `KeyError` is raised; `Nothing` is the answer to a request for no variable, which holds no record.
  datatype Answer = KeyError | Nothing | Values(values: Values)

  /** Each requested variable gets the value it would get alone, whatever else is requested. */
  ghost predicate IsAnswer(c: Scope, rank: map<string, nat>, references: seq<string>, applyModifiers: bool,
                           answer: Answer)
    requires Acyclic(c, rank) && Covers(rank, references)
  {
    && (references == [] <==> answer == Nothing)
    && (references != [] ==>
          (answer == KeyError <==> exists x :: x in references && Wanted(c, rank, x, applyModifiers).None?))
    && (answer.Values? ==>
          && answer.values.Keys == (set x | x in references)
          && forall x :: x in references ==> Wanted(c, rank, x, applyModifiers) == Some(answer.values[x]))
  }

  /** Main result: the loops, which resolve each template in turn, give that answer. */
  method GetVariableValues(c: Scope, ghost rank: map<string, nat>, references: seq<string>, applyModifiers: bool)
    returns (answer: Answer)
    requires Acyclic(c, rank) && Covers(rank, references)
    ensures IsAnswer(c, rank, references, applyModifiers, answer)
    decreases Bound(rank, references), 1
  {
    hide Rendered, Acyclic, Needs;
    if references == [] {
      return Nothing;
    }
    var values := GetGlobalVariableValues(c, references);
    for i := 0 to |references|
      invariant values.Keys == set x | x in references
      invariant forall x :: x in references[..i] ==> values[x] == Raw(c, x)
      invariant forall x :: x in references && x !in references[..i] ==>
                  values[x] == if x in c.global then Text(c.global[x]) else Missing
    {
      var x := references[i];
      if x == "tower" {
        values := values[x := System];
      } else if x in c.own {
        values := values[x := Text(c.own[x])];
      }
    }
    assert references[..|references|] == references;
    var ok, rendered := RenderVariableValues(c, rank, references, values);
    if !ok {
      ghost var x :| x in references && Rendered(c, rank, x).None?;
      assert Wanted(c, rank, x, applyModifiers).None?;
      return KeyError;
    }
    if applyModifiers {
      rendered := ApplyModifiers(c, rank, rendered);
    }
    answer := Values(rendered);
  }

  // `ok` is false where the source raises an error.
  method RenderVariableValues(c: Scope, ghost rank: map<string, nat>, ghost references: seq<string>, values: Values)
    returns (ok: bool, rendered: Values)
    requires Acyclic(c, rank) && Covers(rank, references) && values.Keys == set x | x in references
    requires forall x :: x in values ==> values[x] == Raw(c, x)
    ensures !ok ==> exists x :: x in references && Rendered(c, rank, x).None?
    ensures ok ==> rendered.Keys == values.Keys && forall x :: x in values ==> Rendered(c, rank, x) == Some(rendered[x])
    decreases Bound(rank, references), 0
  {
    hide Resolve, Acyclic, Contains;
    rendered := values;
    var todo := values.Keys;
    while todo != {}
      invariant todo <= values.Keys == rendered.Keys
      invariant forall x :: x in todo ==> rendered[x] == Raw(c, x)
      invariant forall x :: x in values && x !in todo ==> Rendered(c, rank, x) == Some(rendered[x])
    {
      var x :| x in todo;
      todo := todo - {x};
      if IsTemplate(rendered[x]) {
        BoundDecreases(rank, c, references, x);
        var inner := GetVariableValues(c, rank, c.mentions(rendered[x].text), true);
        if !inner.Values? {
          return false, rendered;
        }
        TemplateRendered(c, rank, x, inner.values);
        rendered := rendered[x := Text(c.render(rendered[x].text, inner.values))];
      }
    }
    ok := true;
  }

  lemma TemplateRendered(c: Scope, rank: map<string, nat>, x: string, inner: Values)
    requires Acyclic(c, rank) && x in rank && IsTemplate(Raw(c, x)) && Needs(c, x) != []
    requires inner.Keys == set y | y in Needs(c, x)
    requires forall y :: y in Needs(c, x) ==> Resolve(c, rank, y) == Some(inner[y])
    ensures Rendered(c, rank, x) == Some(Text(c.render(Raw(c, x).text, inner)))
  {
    assert inner == map y | y in Needs(c, x) :: Resolve(c, rank, y).value;
  }

  method ApplyModifiers(c: Scope, ghost rank: map<string, nat>, rendered: Values) returns (values: Values)
    requires Acyclic(c, rank)
    requires forall x :: x in rendered ==> x in rank && Rendered(c, rank, x) == Some(rendered[x])
    ensures values.Keys == rendered.Keys
    ensures forall x :: x in values ==> Resolve(c, rank, x) == Some(values[x])
  {
    values := rendered;
    var todo := rendered.Keys;
    while todo != {}
      invariant todo <= values.Keys == rendered.Keys
      invariant forall x :: x in todo ==> values[x] == rendered[x]
      invariant forall x :: x in values && x !in todo ==> Resolve(c, rank, x) == Some(values[x])
    {
      var x :| x in todo;
      todo := todo - {x};
      if values[x] != Missing && values[x] != Text("") && x in c.expressions {
        values := values[x := c.expressions[x](values[x])];
      }
    }
  }

  method GetGlobalVariableValues(c: Scope, references: seq<string>) returns (values: Values)
    ensures values.Keys == set x | x in references
    ensures forall x :: x in references ==> values[x] == if x in c.global then Text(c.global[x]) else Missing
  {
    values := map[];
    for i := 0 to |references|
      invariant values.Keys == set x | x in references[..i]
      invariant forall x :: x in values ==> values[x] == if x in c.global then Text(c.global[x]) else Missing
    {
      var x := references[i];
      values := values[x := if x in c.global then Text(c.global[x]) else Missing];
    }
    assert references[..|references|] == references;
  }

  // One more than the highest rank of a requested variable.
  ghost function Bound(rank: map<string, nat>, references: seq<string>): nat
    requires Covers(rank, references)
  {
    if references == [] then 0
    else
      var rest := Bound(rank, references[1..]);
      if rank[references[0]] + 1 > rest then rank[references[0]] + 1 else rest
  }

  lemma {:induction false} BoundAbove(rank: map<string, nat>, references: seq<string>, x: string)
    requires x in references && Covers(rank, references)
    ensures rank[x] < Bound(rank, references)
  {
    if references[0] != x {
      BoundAbove(rank, references[1..], x);
    }
  }

  lemma {:induction false} BoundBelow(rank: map<string, nat>, references: seq<string>, n: nat)
    requires forall x :: x in references ==> x in rank && rank[x] < n
    ensures Bound(rank, references) <= n
  {
    if references != [] {
      BoundBelow(rank, references[1..], n);
    }
  }

  lemma BoundDecreases(rank: map<string, nat>, c: Scope, references: seq<string>, x: string)
    requires Acyclic(c, rank) && Covers(rank, references) && x in references
    ensures Covers(rank, Needs(c, x)) && Bound(rank, Needs(c, x)) < Bound(rank, references)
  {
    BoundAbove(rank, references, x);
    BoundBelow(rank, Needs(c, x), rank[x]);
  }

  // --- What the values mean ------------------------------------------------------------------

  /** An assignment that gives every variable what its raw value, rendered with the assignment, and its own
      expression give. */
  ghost predicate Solves(c: Scope, f: string -> Option<Value>) {
    forall x :: f(x) ==
      if !IsTemplate(Raw(c, x)) then Some(Modified(c, x, Raw(c, x)))
      else if Needs(c, x) == [] || exists y :: y in Needs(c, x) && f(y).None? then None
      else Some(Modified(c, x, Text(c.render(Raw(c, x).text, map y | y in Needs(c, x) :: f(y).value))))
  }

  /** The values do not depend on the order of resolution: the equations have one solution only. */
  lemma {:induction false} ResolutionUnique(c: Scope, rank: map<string, nat>, f: string -> Option<Value>, x: string)
    requires Acyclic(c, rank) && x in rank && Solves(c, f)
    ensures f(x) == Resolve(c, rank, x)
    decreases rank[x]
  {
    forall y | y in Needs(c, x)
      ensures f(y) == Resolve(c, rank, y)
    {
      ResolutionUnique(c, rank, f, y);
    }
    if IsTemplate(Raw(c, x)) && Needs(c, x) != [] && forall y :: y in Needs(c, x) ==> f(y).Some? {
      var inner := map y | y in Needs(c, x) :: f(y).value;
      TemplateRendered(c, rank, x, inner);
      assert f(x) == Some(Modified(c, x, Text(c.render(Raw(c, x).text, inner))));
    }
  }

  // A chain of variables, each mentioned in the template before it.
  ghost predicate Chain(c: Scope, path: seq<string>) {
    && path != []
    && forall i :: 0 <= i < |path| - 1 ==> path[i + 1] in Needs(c, path[i])
  }

  ghost predicate EmptyTemplate(c: Scope, x: string) {
    IsTemplate(Raw(c, x)) && Needs(c, x) == []
  }

  /** Resolving a variable fails exactly when it depends, over any number of steps, on a value that looks like
      a template and mentions no variable. */
  lemma FailsOnEmptyTemplate(c: Scope, rank: map<string, nat>, x: string)
    requires Acyclic(c, rank) && x in rank
    ensures Resolve(c, rank, x).None?
       <==> exists path :: Chain(c, path) && path[0] == x && EmptyTemplate(c, path[|path| - 1])
  {
    if Resolve(c, rank, x).None? {
      var path := FailureChain(c, rank, x);
    } else if exists path :: Chain(c, path) && path[0] == x && EmptyTemplate(c, path[|path| - 1]) {
      var path :| Chain(c, path) && path[0] == x && EmptyTemplate(c, path[|path| - 1]);
      ChainFails(c, rank, path);
      assert false;
    }
  }

  lemma {:induction false} FailureChain(c: Scope, rank: map<string, nat>, x: string) returns (path: seq<string>)
    requires Acyclic(c, rank) && x in rank && Resolve(c, rank, x).None?
    ensures Chain(c, path) && path[0] == x && EmptyTemplate(c, path[|path| - 1])
    decreases rank[x]
  {
    if Needs(c, x) == [] {
      path := [x];
    } else {
      var y :| y in Needs(c, x) && Resolve(c, rank, y).None?;
      var rest := FailureChain(c, rank, y);
      path := [x] + rest;
    }
  }

  lemma {:induction false} ChainFails(c: Scope, rank: map<string, nat>, path: seq<string>)
    requires Acyclic(c, rank) && Chain(c, path) && path[0] in rank && EmptyTemplate(c, path[|path| - 1])
    ensures Resolve(c, rank, path[0]).None?
    decreases |path|
  {
    if |path| > 1 {
      assert path[1] in Needs(c, path[0]);
      assert Chain(c, path[1..]) by {
        forall i | 0 <= i < |path[1..]| - 1
          ensures path[1..][i + 1] in Needs(c, path[1..][i])
        {
          assert path[(i + 1) + 1] in Needs(c, path[i + 1]);
        }
      }
      ChainFails(c, rank, path[1..]);
    }
  }
}
