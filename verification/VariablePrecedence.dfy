/** Which value a variable gets: the system value, else the record's own, else the global one, rendered with the answers
    for the variables it mentions and passed through the expression of the variable. */
module VariablePrecedence {
  import opened Basics
  import opened VariableResolution

  // `result` is `v` passed through the expression of `x`, if there is one to apply and `v` is not empty.
  ghost predicate Expressed(c: Scope, applyModifiers: bool, x: string, v: Value, result: Value) {
    result == if applyModifiers && x in c.expressions && v != Missing && v != Text("") then c.expressions[x](v) else v
  }

  /** Variable `x` has the text `text`: its own, or the global one if it has none of its own. */
  ghost predicate HasText(c: Scope, x: string, text: string) {
    && x != "tower"
    && (x in c.own ==> c.own[x] == text)
    && (x !in c.own ==> x in c.global && c.global[x] == text)
  }

  /** A text that is no template is the value.  Without a text there is none, and `tower` is the system value. */
  lemma PlainTextAnswered(c: Scope, rank: map<string, nat>, references: seq<string>, applyModifiers: bool,
                          answer: Answer, x: string)
    requires Acyclic(c, rank) && Covers(rank, references)
    requires IsAnswer(c, rank, references, applyModifiers, answer) && answer.Values? && x in references
    ensures x in answer.values
    ensures forall text :: HasText(c, x, text) && !Contains(text, "{{ ") ==>
              Expressed(c, applyModifiers, x, Text(text), answer.values[x])
    ensures x == "tower" ==> Expressed(c, applyModifiers, x, System, answer.values[x])
    ensures x != "tower" && x !in c.own && x !in c.global ==> answer.values[x] == Missing
  {
    hide Contains, Acyclic;
    assert Wanted(c, rank, x, applyModifiers) == Some(answer.values[x]);
    if !IsTemplate(Raw(c, x)) {
      assert Rendered(c, rank, x) == Some(Raw(c, x));
      assert Resolve(c, rank, x) == Some(Modified(c, x, Raw(c, x)));
    }
  }

  /** A template is rendered with the answers for the variables it mentions; if there are none, or one of them fails,
      so does the request. */
  lemma TemplateAnswered(c: Scope, rank: map<string, nat>, references: seq<string>, applyModifiers: bool,
                         answer: Answer, x: string, text: string)
    requires Acyclic(c, rank) && Covers(rank, references)
    requires IsAnswer(c, rank, references, applyModifiers, answer) && x in references
    requires HasText(c, x, text) && Contains(text, "{{ ")
    ensures Covers(rank, c.mentions(text))
    ensures forall inner :: IsAnswer(c, rank, c.mentions(text), true, inner) ==>
              if inner.Values? then
                answer.Values? ==>
                  x in answer.values
                  && Expressed(c, applyModifiers, x, Text(c.render(text, inner.values)), answer.values[x])
              else answer == KeyError
  {
    assert Raw(c, x) == Text(text) && Needs(c, x) == c.mentions(text);
    forall inner | IsAnswer(c, rank, c.mentions(text), true, inner)
      ensures inner.Values? ==> Rendered(c, rank, x) == Some(Text(c.render(text, inner.values)))
      ensures !inner.Values? ==> Rendered(c, rank, x).None?
    {
      if inner.Values? {
        TemplateRendered(c, rank, x, inner.values);
      }
    }
    assert answer == KeyError || Wanted(c, rank, x, applyModifiers) == Some(answer.values[x]);
    assert Rendered(c, rank, x).None? ==> Wanted(c, rank, x, applyModifiers).None?;
  }

  /** What a record can see of two scopes is the same: a global value behind an own one cannot be seen. */
  ghost predicate LooksAlike(c: Scope, c': Scope) {
    && c'.own == c.own && c'.mentions == c.mentions && c'.render == c.render && c'.expressions == c.expressions
    && forall x :: x !in c.own && x != "tower" ==>
         (x in c'.global <==> x in c.global) && (x in c.global ==> c'.global[x] == c.global[x])
  }

  lemma {:induction false} SameResolved(c: Scope, rank: map<string, nat>, c': Scope, rank': map<string, nat>,
                                        x: string)
    requires LooksAlike(c, c') && Acyclic(c, rank) && Acyclic(c', rank') && x in rank && x in rank'
    ensures Resolve(c', rank', x) == Resolve(c, rank, x) && Rendered(c', rank', x) == Rendered(c, rank, x)
    decreases rank[x]
  {
    assert Raw(c', x) == Raw(c, x) && Needs(c', x) == Needs(c, x);
    forall y | y in Needs(c, x)
      ensures Resolve(c', rank', y) == Resolve(c, rank, y)
    {
      SameResolved(c, rank, c', rank', y);
    }
    if Rendered(c, rank, x).Some? && IsTemplate(Raw(c, x)) {
      var inner := map y | y in Needs(c, x) :: Resolve(c, rank, y).value;
      TemplateRendered(c, rank, x, inner);
      TemplateRendered(c', rank', x, inner);
    }
  }

  /** Main result: a global value matters only to variables without an own value, through any number of templates. */
  lemma OwnHidesGlobal(c: Scope, rank: map<string, nat>, c': Scope, rank': map<string, nat>, references: seq<string>,
                       applyModifiers: bool, answer: Answer, answer': Answer)
    requires LooksAlike(c, c') && Acyclic(c, rank) && Acyclic(c', rank')
    requires Covers(rank, references) && Covers(rank', references)
    requires IsAnswer(c, rank, references, applyModifiers, answer)
    requires IsAnswer(c', rank', references, applyModifiers, answer')
    ensures answer' == answer
  {
    forall x | x in references
      ensures Wanted(c', rank', x, applyModifiers) == Wanted(c, rank, x, applyModifiers)
    {
      SameResolved(c, rank, c', rank', x);
    }
    if answer.Values? {
      assert answer'.values == answer.values;
    }
  }
}
