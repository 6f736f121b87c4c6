/** When the bare references of an exported file resolve: a condition on the records themselves, and an export
    that fails it. */
module YamlOwnership {
  import opened Basics
  import References
  import opened YamlRecords
  import opened YamlRoundTrip

  // Record `x` is target `j` of relation `i` of record `k`.
  ghost predicate Slot(g: Store, k: Key, i: nat, j: nat, x: Key) {
    && k in g && i < |g[k].relations| && j < |g[k].relations[i].targets|
    && Key(g[k].relations[i].comodel, g[k].relations[i].targets[j]) == x
  }

  ghost predicate OwnerSlot(g: Store, k: Key, i: nat, j: nat, x: Key) {
    Slot(g, k, i, j, x) && g[k].relations[i].kind == One2many
  }

  ghost predicate Owned(g: Store, x: Key) {
    exists k, i, j :: OwnerSlot(g, k, i, j, x)
  }

  /** A record behind a one2many field stands behind no other field, and only once behind that one. */
  ghost predicate SingleOwner(g: Store) {
    forall k, i, j, k', i', j', x :: OwnerSlot(g, k, i, j, x) && Slot(g, k', i', j', x) ==>
      k == k' && i == i' && j == j'
  }

  // An owned record that is collected has an owner that is collected, or one of rank above `bound`, or stands
  // before target `j` of relation `i` of `k`.
  ghost predicate OwnersBefore(g: Store, rank: Key -> nat, added: set<Key>, k: Key, i: nat, j: nat) {
    forall o, i': nat, j': nat, x :: OwnerSlot(g, o, i', j', x) && x in added ==>
      o in added || rank(o) > rank(k) || (o == k && (i' < i || (i' == i && j' < j)))
  }

  // Every collected record that no other record owns has been made.
  ghost predicate MadeUnlessOwned(g: Store, added: set<Key>, have: set<Key>) {
    forall x :: x in added && !Owned(g, x) ==> x in have
  }

  // Owned records collected since `before` have their owners collected too, or owned by `k`.
  ghost predicate NewOwners(g: Store, before: set<Key>, later: set<Key>, k: Key) {
    forall o, i, j, x :: OwnerSlot(g, o, i, j, x) && x in later && x !in before ==> o in later || o == k
  }

  ghost predicate AllOwned(g: Store, s: set<Key>) {
    forall x :: x in s ==> Owned(g, x)
  }

  lemma {:induction false} DocResolves(s: Setting, g: Store, rank: Key -> nat, k: Key, added: set<Key>,
                                       have: set<Key>, model: string, kind: Kind)
    requires Acyclic(g, rank) && SingleOwner(g) && k in g
    requires OwnersBefore(g, rank, added, k, 0, 0) && MadeUnlessOwned(g, added, have)
    requires (kind == One2many ==> Owned(g, k)) && (k in added ==> !Owned(g, k))
    ensures var (doc, later) := Export(g, rank, k, added);
            && Resolves(s, model, kind, k.model, doc, have)
            && MadeUnlessOwned(g, later, have + Now(kind, k.model, doc))
            && (forall o, i, j, x :: OwnerSlot(g, o, i, j, x) && x in later && x !in added && x != k ==> o in later)
            && (kind == One2many ==> AllOwned(g, Own(k.model, doc)))
    decreases rank(k), 3, 0
  {
    if k !in added {
      assert Below(g, rank, g[k].relations, rank(k));
      assert g[k].relations[0..] == g[k].relations;
      FieldsResolve(s, g, rank, k, 0, added, have);
      var (fields, later) := ExportFields(g, rank, g[k].relations, rank(k), added);
      FieldsCollect(g, rank, g[k].relations, rank(k), added);
      var doc := Export(g, rank, k, added).0;
      assert doc == Full(k.ref, g[k].data, fields);
    }
  }

  lemma {:induction false} FieldsResolve(s: Setting, g: Store, rank: Key -> nat, k: Key, i: nat, added: set<Key>,
                                         have: set<Key>)
    requires Acyclic(g, rank) && SingleOwner(g) && k in g && i <= |g[k].relations| && k !in added
    requires Below(g, rank, g[k].relations[i..], rank(k))
    requires OwnersBefore(g, rank, added, k, i, 0) && MadeUnlessOwned(g, added, have)
    ensures var (fields, later) := ExportFields(g, rank, g[k].relations[i..], rank(k), added);
            && ResolvesFields(s, k.model, fields, have)
            && MadeUnlessOwned(g, later, have + NowFields(fields))
            && NewOwners(g, added, later, k)
            && AllOwned(g, OwnFields(fields))
    decreases rank(k), 2, |g[k].relations| - i
  {
    var relations := g[k].relations[i..];
    if relations != [] {
      var r := g[k].relations[i];
      assert relations[0] == r && relations[1..] == g[k].relations[i + 1..];
      assert r.targets[0..] == r.targets;
      assert TargetsBelow(g, rank, r.comodel, r.targets, rank(k));
      TargetsResolve(s, g, rank, k, i, 0, added, have);
      TargetsCollect(g, rank, r.kind, r.comodel, r.targets, rank(k), added);
      var (docs, added1) := ExportTargets(g, rank, r.comodel, r.targets, rank(k), added);
      var f := Field(r.field, r.kind, r.comodel, docs);
      FieldsResolve(s, g, rank, k, i + 1, added1, have + NowField(f));
      FieldsCollect(g, rank, relations[1..], rank(k), added1);
      var (rest, later) := ExportFields(g, rank, relations[1..], rank(k), added1);
      assert ([f] + rest)[0] == f && ([f] + rest)[1..] == rest;
      assert have + NowField(f) + NowFields(rest) == have + NowFields([f] + rest);
      assert have + NowDocs(r.kind, r.comodel, docs) == have + NowField(f);
    }
  }

  lemma NextTarget(g: Store, rank: Key -> nat, k: Key, i: nat, j: nat, x: Key, added: set<Key>, added1: set<Key>)
    requires SingleOwner(g) && Slot(g, k, i, j, x) && added <= added1 && OwnersBefore(g, rank, added, k, i, j)
    requires forall o, i', j', y :: OwnerSlot(g, o, i', j', y) && y in added1 && y !in added && y != x ==> o in added1
    ensures OwnersBefore(g, rank, added1, k, i, j + 1)
  {
    forall o, i': nat, j': nat, y | OwnerSlot(g, o, i', j', y) && y in added1
      ensures o in added1 || rank(o) > rank(k) || (o == k && (i' < i || (i' == i && j' < j + 1)))
    {
      if y !in added && y == x {
        assert o == k && i' == i && j' == j;
      }
    }
  }

  lemma {:induction false} TargetsResolve(s: Setting, g: Store, rank: Key -> nat, k: Key, i: nat, j: nat,
                                          added: set<Key>, have: set<Key>)
    requires Acyclic(g, rank) && SingleOwner(g) && k in g && i < |g[k].relations| && j <= |g[k].relations[i].targets|
    requires k !in added
    requires TargetsBelow(g, rank, g[k].relations[i].comodel, g[k].relations[i].targets[j..], rank(k))
    requires OwnersBefore(g, rank, added, k, i, j) && MadeUnlessOwned(g, added, have)
    ensures var r := g[k].relations[i];
            var (docs, later) := ExportTargets(g, rank, r.comodel, r.targets[j..], rank(k), added);
            && ResolvesDocs(s, k.model, r.kind, r.comodel, docs, have)
            && MadeUnlessOwned(g, later, have + NowDocs(r.kind, r.comodel, docs))
            && NewOwners(g, added, later, k) && k !in later
            && OwnersBefore(g, rank, later, k, i + 1, 0)
            && (r.kind == One2many ==> AllOwned(g, OwnDocs(r.comodel, docs)))
    decreases rank(k), 1, |g[k].relations[i].targets| - j
  {
    var r := g[k].relations[i];
    var refs := r.targets[j..];
    if refs != [] {
      var x := Key(r.comodel, r.targets[j]);
      assert refs[0] == r.targets[j] && refs[1..] == r.targets[j + 1..];
      assert Slot(g, k, i, j, x);
      if r.kind == One2many {
        assert OwnerSlot(g, k, i, j, x);
      }
      DocResolves(s, g, rank, x, added, have, k.model, r.kind);
      ExportCollects(g, rank, x, added, r.kind);
      var (doc, added1) := Export(g, rank, x, added);
      NextTarget(g, rank, k, i, j, x, added, added1);
      TargetsResolve(s, g, rank, k, i, j + 1, added1, have + Now(r.kind, r.comodel, doc));
      TargetsCollect(g, rank, r.kind, r.comodel, refs[1..], rank(k), added1);
      var (docs, later) := ExportTargets(g, rank, r.comodel, refs[1..], rank(k), added1);
      assert ([doc] + docs)[0] == doc && ([doc] + docs)[1..] == docs;
      assert have + Now(r.kind, r.comodel, doc) + NowDocs(r.kind, r.comodel, docs)
               == have + NowDocs(r.kind, r.comodel, [doc] + docs);
    }
  }

  lemma {:induction false} SelectionResolves(s: Setting, g: Store, rank: Key -> nat, keys: seq<Key>, added: set<Key>)
    requires Acyclic(g, rank) && SingleOwner(g) && (forall k :: k in keys ==> k in g && !Owned(g, k))
    requires forall o, i, j, x :: OwnerSlot(g, o, i, j, x) && x in added ==> o in added
    ensures ResolvesFile(s, ExportAll(g, rank, keys, added).0, added)
    decreases |keys|
  {
    if keys != [] {
      var k := keys[0];
      var (doc, added1) := Export(g, rank, k, added);
      DocResolves(s, g, rank, k, added, added, "", Many2one);
      ExportCollects(g, rank, k, added, Many2one);
      assert added + Now(Many2one, k.model, doc) == added1;
      SelectionResolves(s, g, rank, keys[1..], added1);
    }
  }

  /** Main result: when owned records have a single owner and are not selected themselves, an export into a file
      and its import into an empty database rebuild exactly what can be reached, in every import mode. */
  lemma RoundTripInEveryMode(s: Setting, g: Store, rank: Key -> nat, keys: seq<Key>)
    requires Acyclic(g, rank) && SingleOwner(g) && (forall k :: k in keys ==> k in g && !Owned(g, k))
    ensures var rebuilt := Import(s, map[], ExportAll(g, rank, keys, {}).0);
            && Reachable(g, keys, rebuilt.Keys)
            && forall k :: k in rebuilt ==> k in g && rebuilt[k] == g[k]
  {
    SelectionResolves(s, g, rank, keys, {});
    RoundTrip(s, g, rank, keys);
  }

  // --- Each record once ----------------------------------------------------------------------

  // How often a record is written out in full.
  function Times(model: string, doc: Doc, x: Key): nat
    decreases doc
  {
    match doc
    case Bare(_) => 0
    case Full(ref, _, fields) => TimesInFields(fields, x) + (if Key(model, ref) == x then 1 else 0)
  }

  function TimesInFields(fields: seq<Field>, x: Key): nat
    decreases fields
  {
    if fields == [] then 0 else TimesInField(fields[0], x) + TimesInFields(fields[1..], x)
  }

  function TimesInField(field: Field, x: Key): nat
    decreases field
  {
    TimesInDocs(field.comodel, field.docs, x)
  }

  function TimesInDocs(comodel: string, docs: seq<Doc>, x: Key): nat
    decreases docs
  {
    if docs == [] then 0 else Times(comodel, docs[0], x) + TimesInDocs(comodel, docs[1..], x)
  }

  function TimesInFile(entries: seq<Entry>, x: Key): nat {
    if entries == [] then 0 else Times(entries[0].model, entries[0].doc, x) + TimesInFile(entries[1..], x)
  }

  function Once(x: Key, before: set<Key>, later: set<Key>): nat {
    if x in later && x !in before then 1 else 0
  }

  lemma {:induction false} DocOnce(g: Store, rank: Key -> nat, k: Key, added: set<Key>, x: Key)
    requires Acyclic(g, rank) && k in g
    ensures var (doc, later) := Export(g, rank, k, added); Times(k.model, doc, x) == Once(x, added, later)
    decreases rank(k), 3, 0
  {
    ExportCollects(g, rank, k, added, Many2one);
    if k !in added {
      assert Below(g, rank, g[k].relations, rank(k));
      FieldsOnce(g, rank, g[k].relations, rank(k), added, x);
      FieldsCollect(g, rank, g[k].relations, rank(k), added);
    }
  }

  lemma {:induction false} FieldsOnce(g: Store, rank: Key -> nat, relations: seq<Relation>, bound: nat,
                                      added: set<Key>, x: Key)
    requires Acyclic(g, rank) && Below(g, rank, relations, bound)
    ensures var (fields, later) := ExportFields(g, rank, relations, bound, added);
            TimesInFields(fields, x) == Once(x, added, later)
    decreases bound, 2, |relations|
  {
    if relations != [] {
      var r := relations[0];
      assert TargetsBelow(g, rank, r.comodel, r.targets, bound);
      TargetsOnce(g, rank, r.comodel, r.targets, bound, added, x);
      TargetsCollect(g, rank, r.kind, r.comodel, r.targets, bound, added);
      var (docs, added1) := ExportTargets(g, rank, r.comodel, r.targets, bound, added);
      FieldsOnce(g, rank, relations[1..], bound, added1, x);
      FieldsCollect(g, rank, relations[1..], bound, added1);
      var (rest, later) := ExportFields(g, rank, relations[1..], bound, added1);
      var f := Field(r.field, r.kind, r.comodel, docs);
      assert ([f] + rest)[1..] == rest;
    }
  }

  lemma {:induction false} TargetsOnce(g: Store, rank: Key -> nat, comodel: string, refs: seq<string>, bound: nat,
                                       added: set<Key>, x: Key)
    requires Acyclic(g, rank) && TargetsBelow(g, rank, comodel, refs, bound)
    ensures var (docs, later) := ExportTargets(g, rank, comodel, refs, bound, added);
            TimesInDocs(comodel, docs, x) == Once(x, added, later)
    decreases bound, 1, |refs|
  {
    if refs != [] {
      DocOnce(g, rank, Key(comodel, refs[0]), added, x);
      ExportCollects(g, rank, Key(comodel, refs[0]), added, Many2one);
      var (doc, added1) := Export(g, rank, Key(comodel, refs[0]), added);
      TargetsOnce(g, rank, comodel, refs[1..], bound, added1, x);
      TargetsCollect(g, rank, Many2one, comodel, refs[1..], bound, added1);
      var (docs, later) := ExportTargets(g, rank, comodel, refs[1..], bound, added1);
      assert ([doc] + docs)[1..] == docs;
    }
  }

  lemma {:induction false} FileOnce(g: Store, rank: Key -> nat, keys: seq<Key>, added: set<Key>, x: Key)
    requires Acyclic(g, rank) && (forall k :: k in keys ==> k in g)
    ensures var (entries, later) := ExportAll(g, rank, keys, added);
            TimesInFile(entries, x) == Once(x, added, later) && added <= later
    decreases |keys|
  {
    if keys != [] {
      DocOnce(g, rank, keys[0], added, x);
      ExportCollects(g, rank, keys[0], added, Many2one);
      FileOnce(g, rank, keys[1..], Export(g, rank, keys[0], added).1, x);
    }
  }

  /** Main result: a file writes each record that can be reached out in full exactly once, and no other record. */
  lemma EachRecordWrittenOnce(g: Store, rank: Key -> nat, keys: seq<Key>, x: Key)
    requires Acyclic(g, rank) && forall k :: k in keys ==> k in g
    ensures exists s :: && Reachable(g, keys, s)
                        && TimesInFile(ExportAll(g, rank, keys, {}).0, x) == if x in s then 1 else 0
  {
    FileOnce(g, rank, keys, {}, x);
    var later := ExportAll(g, rank, keys, {}).1;
    FileReachable(g, rank, keys, {});
    forall t: set<Key> | (forall k :: k in keys ==> k in t) && Closed(g, t)
      ensures later <= t
    {
      FileLeast(g, rank, keys, {}, t);
    }
    assert Reachable(g, keys, later);
  }

  lemma {:induction false} FileReachable(g: Store, rank: Key -> nat, keys: seq<Key>, added: set<Key>)
    requires Acyclic(g, rank) && (forall k :: k in keys ==> k in g) && Closed(g, added)
    ensures var later := ExportAll(g, rank, keys, added).1;
            added <= later && Closed(g, later) && forall k :: k in keys ==> k in later
    decreases |keys|
  {
    if keys != [] {
      ExportCollects(g, rank, keys[0], added, Many2one);
      FileReachable(g, rank, keys[1..], Export(g, rank, keys[0], added).1);
    }
  }

  // --- An export that fails the condition ------------------------------------------------------

  // A server owns a log and a file, and the log refers to the file.
  const SERVER := Key("server", "s")
  const LOG := Key("server.log", "l")
  const FILE := Key("file", "f")

  function LoggedFile(): Store {
    map[SERVER := Record("server", [Relation("server_log_ids", One2many, "server.log", ["l"]),
                                    Relation("file_ids", One2many, "file", ["f"])]),
        LOG := Record("log", [Relation("file_id", Many2one, "file", ["f"])]),
        FILE := Record("file", [])]
  }

  function LoggedFileRank(k: Key): nat {
    if k == SERVER then 2 else if k == LOG then 1 else 0
  }

  function LogDoc(): Doc {
    Full("l", "log", [Field("file_id", Many2one, "file", [Full("f", "file", [])])])
  }

  function ServerDoc(): Doc {
    Full("s", "server", [Field("server_log_ids", One2many, "server.log", [LogDoc()]),
                         Field("file_ids", One2many, "file", [Bare("f")])])
  }

  lemma OneTarget(g: Store, rank: Key -> nat, comodel: string, ref: string, bound: nat, added: set<Key>)
    requires Acyclic(g, rank) && TargetsBelow(g, rank, comodel, [ref], bound)
    ensures var (doc, later) := Export(g, rank, Key(comodel, ref), added);
            ExportTargets(g, rank, comodel, [ref], bound, added) == ([doc], later)
  {
    assert [ref][1..] == [];
    var (doc, later) := Export(g, rank, Key(comodel, ref), added);
    assert ExportTargets(g, rank, comodel, [], bound, later) == ([], later);
    assert [doc] + [] == [doc];
  }

  lemma OneField(g: Store, rank: Key -> nat, r: Relation, bound: nat, added: set<Key>)
    requires Acyclic(g, rank) && Below(g, rank, [r], bound) && TargetsBelow(g, rank, r.comodel, r.targets, bound)
    ensures var (docs, later) := ExportTargets(g, rank, r.comodel, r.targets, bound, added);
            ExportFields(g, rank, [r], bound, added) == ([Field(r.field, r.kind, r.comodel, docs)], later)
  {
    assert [r][1..] == [];
    var (docs, later) := ExportTargets(g, rank, r.comodel, r.targets, bound, added);
    assert ExportFields(g, rank, [], bound, later) == ([], later);
    assert [Field(r.field, r.kind, r.comodel, docs)] + [] == [Field(r.field, r.kind, r.comodel, docs)];
  }

  lemma LoggedFileAcyclic()
    ensures Acyclic(LoggedFile(), LoggedFileRank)
  {
    assert LoggedFile()[SERVER].relations[0].targets == ["l"] && LoggedFile()[SERVER].relations[1].targets == ["f"];
    assert LoggedFile()[LOG].relations[0].targets == ["f"];
  }

  lemma FileExport()
    requires Acyclic(LoggedFile(), LoggedFileRank)
    ensures Export(LoggedFile(), LoggedFileRank, FILE, {}) == (Full("f", "file", []), {FILE})
  {
    assert LoggedFile()[FILE].relations == [] && LoggedFileRank(FILE) == 0;
    assert ExportFields(LoggedFile(), LoggedFileRank, [], 0, {}) == ([], {});
    assert {} + {FILE} == {FILE};
  }

  lemma LogExport()
    requires Acyclic(LoggedFile(), LoggedFileRank)
    ensures Export(LoggedFile(), LoggedFileRank, LOG, {}) == (LogDoc(), {FILE, LOG})
  {
    var g := LoggedFile();
    FileExport();
    OneTarget(g, LoggedFileRank, "file", "f", 1, {});
    OneField(g, LoggedFileRank, g[LOG].relations[0], 1, {});
    assert g[LOG].relations == [g[LOG].relations[0]] && LoggedFileRank(LOG) == 1;
    assert {FILE} + {LOG} == {FILE, LOG};
  }

  lemma LoggedFileExport()
    ensures Acyclic(LoggedFile(), LoggedFileRank)
    ensures ExportAll(LoggedFile(), LoggedFileRank, [SERVER], {}).0 == [Entry("server", ServerDoc())]
  {
    var g := LoggedFile();
    var relations := g[SERVER].relations;
    LoggedFileAcyclic();
    LogExport();
    OneTarget(g, LoggedFileRank, "server.log", "l", 2, {});
    OneTarget(g, LoggedFileRank, "file", "f", 2, {FILE, LOG});
    OneField(g, LoggedFileRank, relations[1], 2, {FILE, LOG});
    assert relations[1..] == [relations[1]];
    var fields := ServerDoc().fields;
    assert [fields[0]] + [fields[1]] == fields;
    assert ExportFields(g, LoggedFileRank, relations, 2, {}) == (fields, {FILE, LOG});
    assert Export(g, LoggedFileRank, SERVER, {}).0 == ServerDoc();
    assert [SERVER][1..] == [];
    assert [Entry("server", ServerDoc())] + [] == [Entry("server", ServerDoc())];
  }

  /** Skipping or updating existing records, that file imports as it should: the file is made for the log and
      then linked to the server. */
  lemma LoggedFileResolves(s: Setting)
    requires s.mode != Create
    ensures Acyclic(LoggedFile(), LoggedFileRank)
    ensures ResolvesFile(s, ExportAll(LoggedFile(), LoggedFileRank, [SERVER], {}).0, {})
  {
    LoggedFileExport();
    var fields := ServerDoc().fields;
    assert Resolves(s, "server.log", Many2one, "file", Full("f", "file", []), {});
    assert ResolvesFields(s, "server.log", LogDoc().fields, {});
    assert Resolves(s, "server", One2many, "server.log", LogDoc(), {});
    assert FILE in NowField(fields[0]) by {
      assert FILE in NowField(LogDoc().fields[0]);
      assert NowField(LogDoc().fields[0]) <= NowFields(LogDoc().fields) == Now(One2many, "server.log", LogDoc());
    }
    assert ResolvesField(s, "server", fields[1], {} + NowField(fields[0]));
    assert fields[1..] == [fields[1]];
    assert ResolvesFields(s, "server", fields, {});
  }

  lemma OneDoc(s: Setting, st: Store, model: string, kind: Kind, comodel: string, doc: Doc)
    ensures var (st1, command) := ProcessDoc(s, st, model, kind, comodel, doc);
            ProcessDocs(s, st, model, kind, comodel, [doc]) == (st1, if command.Some? then [command.value] else [])
  {
    var (st1, command) := ProcessDoc(s, st, model, kind, comodel, doc);
    assert [doc][1..] == [];
    assert ProcessDocs(s, st1, model, kind, comodel, []) == (st1, []);
    var commands := if command.Some? then [command.value] else [];
    assert commands + [] == commands;
  }

  lemma OneProcessedField(s: Setting, st: Store, model: string, f: Field)
    ensures var (st1, commands) := ProcessDocs(s, st, model, f.kind, f.comodel, f.docs);
            ProcessFields(s, st, model, [f]) == (st1, [RelationVals(f.field, f.kind, f.comodel, commands)])
  {
    var (st1, commands) := ProcessDocs(s, st, model, f.kind, f.comodel, f.docs);
    assert [f][1..] == [];
    assert ProcessFields(s, st1, model, []) == (st1, []);
    assert [RelationVals(f.field, f.kind, f.comodel, commands)] + []
             == [RelationVals(f.field, f.kind, f.comodel, commands)];
  }

  lemma FileMadeForLog(s: Setting)
    requires s.mode == Create && !s.resolve("server.log", "file")
    ensures DocVals(s, map[], "server.log", LogDoc())
         == (map[FILE := Record("file", [])],
             Vals(Some("l"), Some("log"), [RelationVals("file_id", Many2one, "file", [Link("f")])]))
  {
    var st: Store := map[FILE := Record("file", [])];
    var fileDoc := Full("f", "file", []);
    assert DocVals(s, map[], "file", fileDoc) == (map[], Vals(Some("f"), Some("file"), []));
    CreateWithFreeReference(map[], FILE, "file", []);
    assert CreateChildren(st, []) == (st, []);
    assert CreateRecord(map[], "file", Vals(Some("f"), Some("file"), [])) == (st, "f") by {
      assert map[][FILE := Record("file", [])] == st && st[FILE := Record("file", [])] == st;
    }
    assert Build(s, map[], "file", fileDoc, true) == (st, Some(Link("f")));
    OneDoc(s, map[], "server.log", Many2one, "file", fileDoc);
    OneProcessedField(s, map[], "server.log", LogDoc().fields[0]);
    assert LogDoc().fields == [LogDoc().fields[0]];
  }

  /** Creating new records, it does not: the bare reference in the one2many field makes a second, empty file,
      under a reference that no exported record has. */
  lemma CreateDuplicatesLoggedFile(s: Setting)
    requires s.mode == Create && !s.resolve("server", "file") && !s.resolve("server", "server.log")
    requires !s.resolve("server.log", "file")
    ensures Acyclic(LoggedFile(), LoggedFileRank)
    ensures exists k :: && k in Import(s, map[], ExportAll(LoggedFile(), LoggedFileRank, [SERVER], {}).0)
                        && k !in LoggedFile()
  {
    LoggedFileExport();
    var st: Store := map[FILE := Record("file", [])];
    var fields := ServerDoc().fields;
    FileMadeForLog(s);
    var logVals := DocVals(s, map[], "server.log", LogDoc()).1;
    var bareVals := Vals(Some("f"), None, []);
    OneDoc(s, map[], "server", One2many, "server.log", LogDoc());
    assert ProcessDocs(s, map[], "server", One2many, "server.log", [LogDoc()]) == (st, [New(logVals)]);
    OneDoc(s, st, "server", One2many, "file", Bare("f"));
    assert ProcessDocs(s, st, "server", One2many, "file", [Bare("f")]) == (st, [New(bareVals)]);
    OneProcessedField(s, st, "server", fields[1]);
    assert fields[1..] == [fields[1]];
    var relations := [RelationVals("server_log_ids", One2many, "server.log", [New(logVals)]),
                      RelationVals("file_ids", One2many, "file", [New(bareVals)])];
    assert [relations[0]] + [relations[1]] == relations;
    assert ProcessFields(s, map[], "server", fields) == (st, relations);
    SecondFileCreated(st, "server", Vals(Some("s"), Some("server"), relations), bareVals);
    OneEntry(s, Entry("server", ServerDoc()));
  }

  lemma OneEntry(s: Setting, entry: Entry)
    ensures Import(s, map[], [entry]) == ImportEntry(s, map[], entry)
  {
    assert [entry][1..] == [];
  }

  lemma SecondFileCreated(st: Store, model: string, vals: Vals, bareVals: Vals)
    requires st.Keys == {FILE} && |vals.relations| == 2 && model != "file"
    requires vals.relations[1] == RelationVals("file_ids", One2many, "file", [New(bareVals)])
    requires bareVals == Vals(Some("f"), None, [])
    ensures exists k :: k in CreateRecord(st, model, vals).0 && k !in LoggedFile()
  {
    var ref := References.Free(Taken(st, model), if vals.ref.Some? then vals.ref.value else model);
    var st1 := st[Key(model, ref) := Record(if vals.data.Some? then vals.data.value else "", [])];
    var r0 := vals.relations[0];
    var st2 := RunCommands(st1, r0.comodel, r0.commands).0;
    CommandsKeep(st1, r0.comodel, r0.commands);
    assert SameRow(st1, st2, FILE);
    assert FILE in st2 && "f" in Taken(st2, "file");
    var (st3, made) := CreateRecord(st2, "file", bareVals);
    var k := Key("file", made);
    assert k.ref != "f" && k in st3;
    assert vals.relations[1..] == [vals.relations[1]];
    LastNewChild(st2, vals.relations[1], bareVals);
    assert k in CreateChildren(st1, vals.relations).0;
    assert k in CreateRecord(st, model, vals).0;
  }

  lemma LastNewChild(st: Store, r: RelationVals, vals: Vals)
    requires r.commands == [New(vals)]
    ensures CreateChildren(st, [r]).0 == CreateRecord(st, r.comodel, vals).0
  {
    assert [r][1..] == [] && [New(vals)][1..] == [];
    var st1 := CreateRecord(st, r.comodel, vals).0;
    assert RunCommand(st, r.comodel, New(vals)).0 == st1;
    assert RunCommands(st1, r.comodel, []) == (st1, []);
    assert CreateChildren(st1, []) == (st1, []);
  }
}
