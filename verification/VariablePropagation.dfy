/** Renaming a variable in the database: which records are rewritten, and what that preserves. */
module VariablePropagation {
  import opened Basics
  import opened VariableRename

  /** A record with templates.  `variable` is the variable a value record belongs to; `variables` are those
      its templates are known to use. */
  datatype Rec = Rec(model: string, variable: Option<nat>, variables: set<nat>, fields: map<string, string>)

  const MODELS := ["cx.tower.command", "cx.tower.file", "cx.tower.file.template", "cx.tower.variable.value",
                   "cx.tower.plan.line"]

  function FieldNames(model: string): seq<string> {
    if model == "cx.tower.command" then ["code", "path"]
    else if model == "cx.tower.file" then ["code", "server_dir", "name"]
    else if model == "cx.tower.file.template" then ["code", "server_dir", "file_name"]
    else if model == "cx.tower.variable.value" then ["value_char"]
    else if model == "cx.tower.plan.line" then ["condition"]
    else []
  }

  // The records found for variable `id`: among values, only its own.
  predicate Found(r: Rec, id: nat) {
    r.model in MODELS && if r.model == "cx.tower.variable.value" then r.variable == Some(id) else id in r.variables
  }

  function Rewritten(r: Rec, id: nat, old_: string, new_: string): Rec {
    if !Found(r, id) then r
    else
      r.(fields := map f | f in r.fields ::
                     if f in FieldNames(r.model) then Sub(r.fields[f], old_, new_) else r.fields[f])
  }

  // The fields with templates, by model.
  const TEMPLATES: set<(string, string)> :=
    {("cx.tower.command", "code"), ("cx.tower.command", "path"),
     ("cx.tower.file", "code"), ("cx.tower.file", "server_dir"), ("cx.tower.file", "name"),
     ("cx.tower.file.template", "code"), ("cx.tower.file.template", "server_dir"),
     ("cx.tower.file.template", "file_name"),
     ("cx.tower.variable.value", "value_char"), ("cx.tower.plan.line", "condition")}

  /** In values of the variable, and in records of the other models that use it, exactly the template fields are
      rewritten; nothing else is. */
  lemma TemplatesRewritten(r: Rec, id: nat, old_: string, new_: string, f: string)
    requires f in r.fields
    ensures var r' := Rewritten(r, id, old_, new_);
            && r' == r.(fields := r'.fields) && r'.fields.Keys == r.fields.Keys
            && var uses := if r.model == "cx.tower.variable.value" then r.variable == Some(id) else id in r.variables;
            r'.fields[f] == if uses && (r.model, f) in TEMPLATES then Sub(r.fields[f], old_, new_) else r.fields[f]
  {
    hide Sub;
    FieldsOfModel(r.model, f);
    if !Found(r, id) {
      UnknownModel(r.model, f);
    }
  }

  lemma FieldsOfModel(model: string, f: string)
    ensures f in FieldNames(model) <==> (model, f) in TEMPLATES
  {
  }

  lemma UnknownModel(model: string, f: string)
    ensures model !in MODELS ==> (model, f) !in TEMPLATES
  {
    assert MODELS[0] == "cx.tower.command" && MODELS[1] == "cx.tower.file" && MODELS[2] == "cx.tower.file.template";
    assert MODELS[3] == "cx.tower.variable.value" && MODELS[4] == "cx.tower.plan.line";
  }

  predicate Occurs(s: string, t: string) {
    t <= s || (s != [] && Occurs(s[1..], t))
  }

  lemma {:induction false} OccursBetween(a: string, t: string, b: string)
    ensures Occurs(a + (t + b), t)
  {
    if a == [] {
      assert a + (t + b) == t + b;
    } else {
      assert (a + (t + b))[1..] == a[1..] + (t + b);
      OccursBetween(a[1..], t, b);
    }
  }

  lemma MatchOccurs(s: string, old_: string)
    requires MatchAt(s, old_).Some?
    ensures Occurs(s, old_)
  {
    var s1 := Peel(s, "{{").value;
    var (left, s2) := Span(s1, IsBlank);
    var s3 := Peel(s2, old_).value;
    assert s == ("{{" + left) + (old_ + s3);
    OccursBetween("{{" + left, old_, s3);
  }

  // The check before the rewrite loses nothing.
  lemma {:induction false} SubAbsent(s: string, old_: string, new_: string)
    requires !Occurs(s, old_)
    ensures Sub(s, old_, new_) == s
    decreases |s|
  {
    if s != [] {
      if MatchAt(s, old_).Some? {
        MatchOccurs(s, old_);
        assert false;
      }
      SubAbsent(s[1..], old_, new_);
      assert s == [s[0]] + s[1..];
    }
  }

  class VariableStore {
    var references: map<nat, string>
    var records: map<nat, Rec>

    constructor (references: map<nat, string>, records: map<nat, Rec>)
      ensures this.references == references && this.records == records
    {
      this.references, this.records := references, records;
    }

    method Write(id: nat, reference: string)
      requires id in references
      modifies this
      ensures references == old(references)[id := reference]
      ensures records == map k | k in old(records) ::
                if old(references)[id] == [] || old(references)[id] == reference then old(records)[k]
                else Rewritten(old(records)[k], id, old(references)[id], reference)
    {
      var oldReference := references[id];
      references := references[id := reference];
      if oldReference != [] && oldReference != reference {
        PropagateReferenceChange(id, oldReference, reference);
      }
    }

    method PropagateReferenceChange(id: nat, old_: string, new_: string)
      modifies this`records
      ensures records == map k | k in old(records) :: Rewritten(old(records)[k], id, old_, new_)
    {
      ghost var before := records;
      for m := 0 to |MODELS|
        invariant records.Keys == before.Keys
        invariant forall k :: k in before ==>
                    records[k] == if before[k].model in MODELS[..m] then Rewritten(before[k], id, old_, new_)
                                  else before[k]
      {
        PropagateToModel(MODELS[m], id, old_, new_);
        assert MODELS[..m + 1] == MODELS[..m] + [MODELS[m]];
        ModelsDiffer(m);
      }
      assert MODELS[..|MODELS|] == MODELS;
    }

    method PropagateToModel(model: string, id: nat, old_: string, new_: string)
      requires model in MODELS
      modifies this`records
      ensures records.Keys == old(records).Keys
      ensures forall k :: k in old(records) ==>
                records[k] == if old(records)[k].model == model then Rewritten(old(records)[k], id, old_, new_)
                              else old(records)[k]
    {
      ghost var before := records;
      var todo := set k | k in records && records[k].model == model && Found(records[k], id);
      ghost var found := todo;
      while todo != {}
        invariant todo <= found
        invariant records.Keys == before.Keys
        invariant forall k :: k in before ==>
                    records[k] == if k in found - todo then Rewritten(before[k], id, old_, new_) else before[k]
      {
        var k :| k in todo;
        var r := RewriteRecord(records[k], id, old_, new_);
        records := records[k := r];
        todo := todo - {k};
      }
    }

    static method RewriteRecord(r: Rec, id: nat, old_: string, new_: string) returns (r': Rec)
      requires Found(r, id)
      ensures r' == Rewritten(r, id, old_, new_)
    {
      NamesDiffer(r.model);
      var fields := RewriteFields(r.fields, FieldNames(r.model), old_, new_);
      r' := r.(fields := fields);
    }

    static method RewriteText(text: string, old_: string, new_: string) returns (text': string)
      ensures text' == Sub(text, old_, new_)
    {
      if Occurs(text, old_) {
        text' := Sub(text, old_, new_);
      } else {
        SubAbsent(text, old_, new_);
        text' := text;
      }
    }

    static method RewriteFields(texts: map<string, string>, names: seq<string>, old_: string, new_: string)
      returns (fields: map<string, string>)
      requires forall i, j :: 0 <= i < j < |names| ==> names[i] != names[j]
      ensures fields == map f | f in texts :: if f in names then Sub(texts[f], old_, new_) else texts[f]
    {
      hide Sub;
      fields := texts;
      for n := 0 to |names|
        invariant fields.Keys == texts.Keys
        invariant forall f :: f in texts ==> fields[f] == if f in names[..n] then Sub(texts[f], old_, new_)
                                                          else texts[f]
      {
        assert names[..n + 1] == names[..n] + [names[n]];
        if names[n] in fields {
          var value := RewriteText(fields[names[n]], old_, new_);
          fields := fields[names[n] := value];
        }
      }
      assert names[..|names|] == names;
    }
  }

  lemma NamesDiffer(model: string)
    ensures var names := FieldNames(model); forall i, j :: 0 <= i < j < |names| ==> names[i] != names[j]
  {
    assert "code"[0] != "path"[0] && "code"[0] != "server_dir"[0];
    assert "code"[0] != "name"[0] && "code"[0] != "file_name"[0];
    assert "server_dir"[0] != "name"[0] && "server_dir"[0] != "file_name"[0];
  }

  lemma ModelsDiffer(m: nat)
    requires m < |MODELS|
    ensures MODELS[m] !in MODELS[..m]
  {
    assert forall i, j :: 0 <= i < j < |MODELS| ==> |MODELS[i]| != |MODELS[j]| || MODELS[i] != MODELS[j];
  }

  // --- What that preserves -----------------------------------------------------------------------

  /** Main result: a plain template in a field of a record that is found keeps its meaning, for all values of the
      variables, exactly if the names allow it. */
  lemma FoundKeepsMeaningIff(r: Rec, id: nat, old_: string, new_: string, f: string, literals: Literals)
    requires IsName(old_) && IsName(new_) && old_ != new_
    requires Found(r, id) && f in r.fields && f in FieldNames(r.model) && Parse(r.fields[f]).Some?
    ensures var t, t' := Parse(r.fields[f]).value, Parse(Rewritten(r, id, old_, new_).fields[f]);
            && t'.Some?
            && ((forall env :: new_ !in env ==>
                   Render(t'.value, literals, RenameEnv(env, old_, new_)) == Render(t, literals, env))
                <==> SafeNames(t, literals, old_, new_))
  {
    SubIsRename(r.fields[f], old_, new_);
    RenameSafeIff(Parse(r.fields[f]).value, literals, old_, new_);
  }

  /** A record that is not found keeps its text, and so its meaning exactly if it does not use the variable.  A
      value of another variable is such a record, whatever it mentions. */
  lemma NotFoundKeepsMeaningIff(r: Rec, id: nat, old_: string, new_: string, f: string, literals: Literals)
    requires old_ != new_ && !Found(r, id) && f in r.fields && Parse(r.fields[f]).Some?
    requires !(IsVariable(new_) && new_ in Names(Parse(r.fields[f]).value))
    ensures Rewritten(r, id, old_, new_) == r
    ensures UnchangedSafe(Parse(r.fields[f]).value, literals, old_, new_)
            <==> !(IsVariable(old_) && old_ in Names(Parse(r.fields[f]).value))
  {
    UnchangedSafeIff(Parse(r.fields[f]).value, literals, old_, new_);
  }

  lemma OtherValueLosesMeaning(literals: Literals)
    ensures var r := Rec("cx.tower.variable.value", Some(1), {0}, map["value_char" := "{{ a }}"]);
            var t := Parse(Rewritten(r, 0, "a", "b").fields["value_char"]);
            && t.Some? && Render(t.value, literals, map["a" := "x"]) == "x"
            && Render(t.value, literals, RenameEnv(map["a" := "x"], "a", "b")) == []
  {
    ShortNames();
    var h := Hole(" ", "a", " ");
    assert "{{ a }}" == HoleThen(h, []);
    HoleAlone(h, literals, map["a" := "x"]);
    HoleAlone(h, literals, RenameEnv(map["a" := "x"], "a", "b"));
  }
}
