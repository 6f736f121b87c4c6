/** The export and import code itself: a collector shared by the whole export, and an import that works on
    the database as it goes. */
module YamlStore {
  import opened Basics
  import opened YamlRecords

  class YamlExportCollector {
    var addedReferences: set<Key>

    constructor ()
      ensures addedReferences == {}
    {
      addedReferences := {};
    }

    method Add(k: Key)
      modifies this
      ensures addedReferences == old(addedReferences) + {k}
    {
      if k !in addedReferences {
        addedReferences := addedReferences + {k};
      }
    }

    predicate IsAdded(k: Key)
      reads this
    {
      k in addedReferences
    }
  }

  method PostProcessRecordValues(g: Store, ghost rank: Key -> nat, k: Key, collector: YamlExportCollector)
    returns (doc: Doc)
    requires Acyclic(g, rank) && k in g
    modifies collector
    ensures (doc, collector.addedReferences) == Export(g, rank, k, old(collector.addedReferences))
    decreases rank(k), 3, 0
  {
    if collector.IsAdded(k) {
      return Bare(k.ref);
    }
    var relations := g[k].relations;
    var fields: seq<Field> := [];
    assert Below(g, rank, relations, rank(k));
    ghost var before := collector.addedReferences;
    assert relations[0..] == relations;
    for i := 0 to |relations|
      invariant Below(g, rank, relations[i..], rank(k))
      invariant var rest := ExportFields(g, rank, relations[i..], rank(k), collector.addedReferences);
                var whole := ExportFields(g, rank, relations, rank(k), before);
                whole.0 == fields + rest.0 && whole.1 == rest.1
    {
      var r := relations[i];
      assert relations[i..][0] == r && relations[i..][1..] == relations[i + 1..];
      assert TargetsBelow(g, rank, r.comodel, r.targets, rank(k));
      var docs := ProcessRelatedRecords(g, rank, r.comodel, r.targets, rank(k), collector);
      fields := fields + [Field(r.field, r.kind, r.comodel, docs)];
    }
    assert relations[|relations|..] == [] && fields + [] == fields;
    collector.Add(k);
    doc := Full(k.ref, g[k].data, fields);
  }

  method ProcessRelatedRecords(g: Store, ghost rank: Key -> nat, comodel: string, refs: seq<string>, ghost bound: nat,
                               collector: YamlExportCollector)
    returns (docs: seq<Doc>)
    requires Acyclic(g, rank) && TargetsBelow(g, rank, comodel, refs, bound)
    modifies collector
    ensures (docs, collector.addedReferences)
         == ExportTargets(g, rank, comodel, refs, bound, old(collector.addedReferences))
    decreases bound, 1, |refs|
  {
    docs := [];
    ghost var before := collector.addedReferences;
    assert refs[0..] == refs;
    for j := 0 to |refs|
      invariant TargetsBelow(g, rank, comodel, refs[j..], bound)
      invariant var rest := ExportTargets(g, rank, comodel, refs[j..], bound, collector.addedReferences);
                var whole := ExportTargets(g, rank, comodel, refs, bound, before);
                whole.0 == docs + rest.0 && whole.1 == rest.1
    {
      assert refs[j..][0] == refs[j] && refs[j..][1..] == refs[j + 1..];
      var doc := PostProcessRecordValues(g, rank, Key(comodel, refs[j]), collector);
      docs := docs + [doc];
    }
    assert refs[|refs|..] == [] && docs + [] == docs;
  }

  method ExportRecords(g: Store, ghost rank: Key -> nat, keys: seq<Key>) returns (entries: seq<Entry>)
    requires Acyclic(g, rank) && forall k :: k in keys ==> k in g
    ensures entries == ExportAll(g, rank, keys, {}).0
  {
    hide Export;
    var collector := new YamlExportCollector();
    entries := [];
    assert keys[0..] == keys;
    for n := 0 to |keys|
      invariant fresh(collector)
      invariant forall k :: k in keys[n..] ==> k in g
      invariant ExportAll(g, rank, keys, {}).0 == entries + ExportAll(g, rank, keys[n..], collector.addedReferences).0
    {
      assert keys[n..][0] == keys[n] && keys[n..][1..] == keys[n + 1..];
      var doc := PostProcessRecordValues(g, rank, keys[n], collector);
      if !doc.Bare? {
        entries := entries + [Entry(keys[n].model, doc)];
      }
    }
  }

  class Database {
    var rows: Store

    constructor ()
      ensures rows == map[]
    {
      rows := map[];
    }

    method PostProcessYamlDictValues(s: Setting, model: string, doc: Doc) returns (vals: Vals)
      modifies this
      ensures (rows, vals) == DocVals(s, old(rows), model, doc)
      decreases doc, 0, 0
    {
      match doc
      case Bare(ref) =>
        vals := Vals(Some(ref), None, []);
      case Full(ref, data, fields) =>
        var relations := ProcessRelationFields(s, model, fields);
        vals := Vals(Some(ref), Some(data), relations);
    }

    method ProcessRelationFields(s: Setting, model: string, fields: seq<Field>) returns (relations: seq<RelationVals>)
      modifies this
      ensures (rows, relations) == ProcessFields(s, old(rows), model, fields)
      decreases fields, 0, 0
    {
      relations := [];
      assert fields[0..] == fields;
      for i := 0 to |fields|
        invariant var rest := ProcessFields(s, rows, model, fields[i..]);
                  var whole := ProcessFields(s, old(rows), model, fields);
                  whole.0 == rest.0 && whole.1 == relations + rest.1
      {
        assert fields[i..][0] == fields[i] && fields[i..][1..] == fields[i + 1..];
        var commands := ProcessFieldValue(s, model, fields[i]);
        relations := relations + [RelationVals(fields[i].field, fields[i].kind, fields[i].comodel, commands)];
      }
      assert fields[|fields|..] == [] && relations + [] == relations;
    }

    method ProcessFieldValue(s: Setting, model: string, field: Field) returns (commands: seq<Command>)
      modifies this
      ensures (rows, commands) == ProcessDocs(s, old(rows), model, field.kind, field.comodel, field.docs)
      decreases field, 0, 0
    {
      var docs := field.docs;
      commands := [];
      assert docs[0..] == docs;
      for j := 0 to |docs|
        invariant var rest := ProcessDocs(s, rows, model, field.kind, field.comodel, docs[j..]);
                  var whole := ProcessDocs(s, old(rows), model, field.kind, field.comodel, docs);
                  whole.0 == rest.0 && whole.1 == commands + rest.1
      {
        assert docs[j..][0] == docs[j] && docs[j..][1..] == docs[j + 1..];
        var command := ProcessValue(s, model, field.kind, field.comodel, docs[j]);
        if command.Some? {
          commands := commands + [command.value];
        }
      }
      assert docs[|docs|..] == [] && commands + [] == commands;
    }

    // One value of a many2one or an x2many field.
    method ProcessValue(s: Setting, model: string, kind: Kind, comodel: string, doc: Doc)
      returns (command: Option<Command>)
      modifies this
      ensures (rows, command) == ProcessDoc(s, old(rows), model, kind, comodel, doc)
      decreases doc, 2, 0
    {
      command := UpdateOrCreateRelatedRecord(s, model, comodel, doc, kind != One2many);
      if command.None? && Key(comodel, doc.ref) in rows {
        command := Some(Link(doc.ref));
      }
    }

    method UpdateOrCreateRelatedRecord(s: Setting, model: string, comodel: string, doc: Doc, createImmediately: bool)
      returns (command: Option<Command>)
      modifies this
      ensures (rows, command) == UpdateOrCreate(s, old(rows), model, comodel, doc, createImmediately)
      decreases doc, 1, 0
    {
      var k := Key(comodel, doc.ref);
      if s.mode != Create || s.resolve(model, comodel) {
        if k in rows {
          var vals := PostProcessYamlDictValues(s, comodel, doc);
          if k in rows {
            rows := WriteRecord(rows, k, vals.(ref := None));
          }
          return Some(Link(doc.ref));
        }
      } else if createImmediately && doc.Bare? {
        return None;
      }
      var vals := PostProcessYamlDictValues(s, comodel, doc);
      if createImmediately {
        var (st, ref) := CreateRecord(rows, comodel, vals);
        rows := st;
        command := Some(Link(ref));
      } else {
        command := Some(New(vals));
      }
    }

    method ActionImportYaml(s: Setting, entries: seq<Entry>)
      modifies this
      ensures rows == Import(s, old(rows), entries)
    {
      assert entries[0..] == entries;
      for n := 0 to |entries|
        invariant Import(s, rows, entries[n..]) == Import(s, old(rows), entries)
      {
        assert entries[n..][0] == entries[n] && entries[n..][1..] == entries[n + 1..];
        var k := Key(entries[n].model, entries[n].doc.ref);
        var exists_ := k in rows;
        if !(s.mode == Skip && exists_) {
          var vals := PostProcessYamlDictValues(s, entries[n].model, entries[n].doc);
          if s.mode == Update && exists_ && k in rows {
            rows := WriteRecord(rows, k, vals);
          } else {
            rows := CreateRecord(rows, entries[n].model, vals).0;
          }
        }
      }
    }
  }
}
