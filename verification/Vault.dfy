/** Secrets of records, kept in one vault table beside the records' own table.  However the code batches its
    reads and writes, the vault is one map from model, record and field to a secret. */
module Vault {
  import opened Basics

  datatype SecretKey = SecretKey(model: string, id: nat, field: string)
  datatype Row = Row(key: SecretKey, data: string)

  // Values for fields by name; `None` stands for both empty values of the source.
  type Vals = map<string, Option<string>>

  /** `rows` stores the map `secrets`, one row a key. */
  ghost predicate Stores(rows: map<nat, Row>, secrets: map<SecretKey, string>) {
    && (forall r :: r in rows ==> rows[r].key in secrets && secrets[rows[r].key] == rows[r].data)
    && (forall k :: k in secrets ==> exists r :: r in rows && rows[r].key == k)
    && (forall r, q :: r in rows && q in rows && rows[r].key == rows[q].key ==> r == q)
  }

  ghost predicate Distinct(ids: seq<nat>) {
    forall i, j :: 0 <= i < j < |ids| ==> ids[i] != ids[j]
  }

  /** The keys of some fields of some records. */
  ghost function Keys(model: string, ids: seq<nat>, fields: set<string>): (keys: set<SecretKey>)
    ensures forall k :: k in keys <==> k.model == model && k.id in ids && k.field in fields
  {
    var keys := set i, f | i in ids && f in fields :: SecretKey(model, i, f);
    assert forall k: SecretKey :: k == SecretKey(k.model, k.id, k.field);
    keys
  }

  ghost function Allowed(vals: Vals, allowed: set<string>): set<string> {
    set f | f in vals && f in allowed
  }

  /** Setting values key by key: a value replaces the secret, an empty one removes it. */
  ghost function Updated(secrets: map<SecretKey, string>, keys: set<SecretKey>, vals: Vals): map<SecretKey, string>
    requires forall k :: k in keys ==> k.field in vals
  {
    map k | k in secrets.Keys + keys && (k in keys ==> vals[k.field].Some?) ::
      if k in keys then vals[k.field].value else secrets[k]
  }

  /** A value is read back, an empty one leaves no secret, and no other secret changes. */
  lemma UpdatedReads(secrets: map<SecretKey, string>, model: string, ids: seq<nat>, allowed: set<string>, vals: Vals,
                     k: SecretKey)
    ensures var after := Updated(secrets, Keys(model, ids, Allowed(vals, allowed)), vals);
            if k.model == model && k.id in ids && k.field in vals && k.field in allowed then
              match vals[k.field]
              case Some(v) => k in after && after[k] == v
              case None => k !in after
            else (k in after <==> k in secrets) && (k in secrets ==> after[k] == secrets[k])
  {
  }

  // What a batch does: rows by their new data, rows to delete, rows to add.
  datatype Batch = Batch(updates: map<string, set<nat>>, deletions: set<nat>, additions: seq<Row>)

  /** The batch holds exactly the work for the keys of `done`. */
  ghost predicate Plans(b: Batch, rows: map<nat, Row>, done: set<SecretKey>, vals: Vals) {
    && (forall k :: k in done ==> k.field in vals)
    && PlansUpdates(b.updates, rows, done, vals)
    && PlansDeletions(b.deletions, rows, done, vals)
    && PlansAdditions(b.additions, rows, done, vals)
  }

  ghost predicate PlansUpdates(updates: map<string, set<nat>>, rows: map<nat, Row>, done: set<SecretKey>, vals: Vals)
    requires forall k :: k in done ==> k.field in vals
  {
    && (forall v, r :: v in updates && r in updates[v] ==>
        r in rows && rows[r].key in done && vals[rows[r].key.field] == Some(v))
    && (forall r :: r in rows && rows[r].key in done && vals[rows[r].key.field].Some? ==>
          vals[rows[r].key.field].value in updates && r in updates[vals[rows[r].key.field].value])
  }

  ghost predicate PlansDeletions(deletions: set<nat>, rows: map<nat, Row>, done: set<SecretKey>, vals: Vals)
    requires forall k :: k in done ==> k.field in vals
  {
    forall r :: r in deletions <==> r in rows && rows[r].key in done && vals[rows[r].key.field].None?
  }

  ghost predicate PlansAdditions(additions: seq<Row>, rows: map<nat, Row>, done: set<SecretKey>, vals: Vals)
    requires forall k :: k in done ==> k.field in vals
  {
    && (forall i :: 0 <= i < |additions| ==>
          additions[i].key in done && vals[additions[i].key.field] == Some(additions[i].data)
          && forall r :: r in rows ==> rows[r].key != additions[i].key)
    && (forall i, j :: 0 <= i < j < |additions| ==> additions[i].key != additions[j].key)
    && (forall k :: k in done && vals[k.field].Some? && (forall r :: r in rows ==> rows[r].key != k) ==>
          exists i :: 0 <= i < |additions| && additions[i].key == k)
  }

  // One write for a group of rows.
  function WriteData(rows: map<nat, Row>, group: set<nat>, value: string): map<nat, Row> {
    map r | r in rows :: if r in group then rows[r].(data := value) else rows[r]
  }

  // The rows after the groups of `values` are written, and after all of them.
  ghost function RewrittenFor(rows: map<nat, Row>, done: set<SecretKey>, vals: Vals, values: set<string>): map<nat, Row>
    requires forall k :: k in done ==> k.field in vals
  {
    map r | r in rows ::
      if rows[r].key in done && vals[rows[r].key.field].Some? && vals[rows[r].key.field].value in values
      then Row(rows[r].key, vals[rows[r].key.field].value) else rows[r]
  }

  ghost function Rewritten(rows: map<nat, Row>, done: set<SecretKey>, vals: Vals): map<nat, Row>
    requires forall k :: k in done ==> k.field in vals
  {
    map r | r in rows ::
      if rows[r].key in done && vals[rows[r].key.field].Some? then Row(rows[r].key, vals[rows[r].key.field].value)
      else rows[r]
  }

  lemma GroupWritten(updates: map<string, set<nat>>, rows: map<nat, Row>, done: set<SecretKey>, vals: Vals,
                     values: set<string>, value: string)
    requires (forall k :: k in done ==> k.field in vals) && PlansUpdates(updates, rows, done, vals)
    requires value in updates
    ensures WriteData(RewrittenFor(rows, done, vals, values), updates[value], value)
            == RewrittenFor(rows, done, vals, values + {value})
  {
    var before := RewrittenFor(rows, done, vals, values);
    var after := RewrittenFor(rows, done, vals, values + {value});
    forall r | r in rows
      ensures after[r] == if r in updates[value] then before[r].(data := value) else before[r]
    {
    }
  }

  /** The rows after a batch: data replaced in place, new rows numbered from `next`, deleted rows gone. */
  ghost predicate Applied(b: Batch, rows: map<nat, Row>, next: nat, done: set<SecretKey>, vals: Vals,
                          rows': map<nat, Row>)
    requires Plans(b, rows, done, vals) && forall r :: r in rows ==> r < next
  {
    && (forall r :: r in rows' <==> (r in rows && r !in b.deletions) || next <= r < next + |b.additions|)
    && (forall r :: r in rows' && r in rows ==> rows'[r] == Rewritten(rows, done, vals)[r])
    && (forall i :: 0 <= i < |b.additions| && next + i in rows' ==> rows'[next + i] == b.additions[i])
  }

  lemma {:induction false} AppliedUpdates(b: Batch, rows: map<nat, Row>, next: nat, done: set<SecretKey>, vals: Vals,
                                          rows': map<nat, Row>, secrets: map<SecretKey, string>)
    requires Stores(rows, secrets) && (forall r :: r in rows ==> r < next)
    requires Plans(b, rows, done, vals) && Applied(b, rows, next, done, vals, rows')
    ensures Stores(rows', Updated(secrets, done, vals))
  {
    var after := Updated(secrets, done, vals);
    forall r | r in rows'
      ensures rows'[r].key in after && after[rows'[r].key] == rows'[r].data
      ensures next <= r ==> forall q :: q in rows ==> rows[q].key != rows'[r].key
      ensures r < next ==> r in rows && rows'[r].key == rows[r].key
    {
      if next <= r {
        assert rows'[next + (r - next)] == b.additions[r - next];
      }
    }
    forall k | k in after
      ensures exists r :: r in rows' && rows'[r].key == k
    {
      if r :| r in rows && rows[r].key == k {
        assert r !in b.deletions;
        assert r in rows';
      } else {
        assert k !in secrets;
        var i :| 0 <= i < |b.additions| && b.additions[i].key == k;
        assert next + i in rows';
      }
    }
    KeysStayUnique(b, rows, next, done, vals, rows');
  }

  lemma KeysStayUnique(b: Batch, rows: map<nat, Row>, next: nat, done: set<SecretKey>, vals: Vals, rows': map<nat, Row>)
    requires forall r :: r in rows ==> r < next
    requires forall r, q :: r in rows && q in rows && rows[r].key == rows[q].key ==> r == q
    requires Plans(b, rows, done, vals) && Applied(b, rows, next, done, vals, rows')
    ensures forall r, q :: r in rows' && q in rows' && rows'[r].key == rows'[q].key ==> r == q
  {
    forall r, q | r in rows' && q in rows' && r < q
      ensures rows'[r].key != rows'[q].key
    {
      if next <= q {
        assert rows'[next + (q - next)] == b.additions[q - next];
        if next <= r {
          assert rows'[next + (r - next)] == b.additions[r - next];
        }
      }
    }
  }

  // A row with an empty value goes, one with a new value joins the group of that value.
  lemma RowPlanned(b: Batch, rows: map<nat, Row>, done: set<SecretKey>, vals: Vals, k: SecretKey, r: nat)
    requires (forall k :: k in done ==> k.field in vals) && k.field in vals
    requires PlansUpdates(b.updates, rows, done, vals) && PlansDeletions(b.deletions, rows, done, vals)
    requires r in rows && rows[r].key == k && forall q :: q in rows && rows[q].key == k ==> q == r
    ensures vals[k.field].None? ==>
              && PlansUpdates(b.updates, rows, done + {k}, vals)
              && PlansDeletions(b.deletions + {r}, rows, done + {k}, vals)
    ensures vals[k.field].Some? ==>
              var v := vals[k.field].value;
              && PlansUpdates(b.updates[v := (if v in b.updates then b.updates[v] else {}) + {r}],
                              rows, done + {k}, vals)
              && PlansDeletions(b.deletions, rows, done + {k}, vals)
  {
  }

  lemma AdditionPlanned(additions: seq<Row>, rows: map<nat, Row>, done: set<SecretKey>, vals: Vals, k: SecretKey)
    requires (forall k :: k in done ==> k.field in vals) && PlansAdditions(additions, rows, done, vals)
    requires k !in done && k.field in vals && vals[k.field].Some? && forall r :: r in rows ==> rows[r].key != k
    ensures PlansAdditions(additions + [Row(k, vals[k.field].value)], rows, done + {k}, vals)
  {
    var after := additions + [Row(k, vals[k.field].value)];
    assert forall i :: 0 <= i < |additions| ==> after[i] == additions[i];
    assert after[|additions|].key == k;
  }

  lemma BatchApplied(b: Batch, rows: map<nat, Row>, next: nat, done: set<SecretKey>, vals: Vals, larger: map<nat, Row>)
    requires Plans(b, rows, done, vals) && forall r :: r in rows ==> r < next
    requires forall r :: r in larger <==> r in rows || next <= r < next + |b.additions|
    requires forall r :: r in rows ==> larger[r] == Rewritten(rows, done, vals)[r]
    requires forall j :: 0 <= j < |b.additions| ==> larger[next + j] == b.additions[j]
    ensures Applied(b, rows, next, done, vals, larger - b.deletions)
  {
  }

  /** `r` holds the secrets of `seen` by record and field, and no empty entries. */
  ghost predicate Shows(r: map<nat, map<string, string>>, model: string, seen: map<SecretKey, string>) {
    && (forall id, f :: (id in r && f in r[id]) <==> SecretKey(model, id, f) in seen)
    && (forall id, f :: id in r && f in r[id] ==> r[id][f] == seen[SecretKey(model, id, f)])
    && (forall id :: id in r ==> r[id] != map[])
  }

  function Put(r: map<nat, map<string, string>>, row: Row): map<nat, map<string, string>> {
    r[row.key.id := (if row.key.id in r then r[row.key.id] else map[])[row.key.field := row.data]]
  }

  lemma ShowsOneMore(r: map<nat, map<string, string>>, model: string, seen: map<SecretKey, string>, row: Row)
    requires Shows(r, model, seen) && row.key.model == model
    ensures Shows(Put(r, row), model, seen[row.key := row.data])
  {
    assert row.key.field in Put(r, row)[row.key.id];
  }

  // `seen` holds the keys of some rows, each with the data of one of them.
  ghost predicate Sees(rows: map<nat, Row>, found: set<nat>, seen: map<SecretKey, string>)
    requires forall q :: q in found ==> q in rows
  {
    && (forall k :: k in seen ==> exists q :: q in found && rows[q] == Row(k, seen[k]))
    && (forall q :: q in found ==> rows[q].key in seen)
  }

  lemma SeesOneMore(rows: map<nat, Row>, found: set<nat>, seen: map<SecretKey, string>, q: nat)
    requires (forall q :: q in found ==> q in rows) && Sees(rows, found, seen) && q in rows
    ensures Sees(rows, found + {q}, seen[rows[q].key := rows[q].data])
  {
    var after := seen[rows[q].key := rows[q].data];
    forall k | k in after
      ensures exists p :: p in found + {q} && rows[p] == Row(k, after[k])
    {
      if k != rows[q].key {
        var p :| p in found && rows[p] == Row(k, seen[k]);
        assert p in found + {q};
      } else {
        assert q in found + {q} && rows[q] == Row(k, after[k]);
      }
    }
  }

  lemma FoundSecrets(rows: map<nat, Row>, secrets: map<SecretKey, string>, found: set<nat>,
                     seen: map<SecretKey, string>, keys: set<SecretKey>)
    requires Stores(rows, secrets) && found == (set r | r in rows && rows[r].key in keys) && Sees(rows, found, seen)
    ensures seen == map k | k in secrets && k in keys :: secrets[k]
  {
    forall k | k in secrets && k in keys
      ensures k in seen
    {
      var r :| r in rows && rows[r].key == k;
      assert r in found;
    }
  }

  class VaultTable {
    var rows: map<nat, Row>
    var next: nat
    ghost var secrets: map<SecretKey, string>

    ghost predicate Valid()
      reads this
    {
      Stores(rows, secrets) && forall r :: r in rows ==> r < next
    }

    constructor ()
      ensures Valid() && secrets == map[]
    {
      rows, next, secrets := map[], 0, map[];
    }

    // One query for all records and fields.
    method Search(model: string, ids: seq<nat>, fields: set<string>) returns (found: set<nat>)
      ensures found == set r | r in rows && rows[r].key in Keys(model, ids, fields)
    {
      found := set r | r in rows && rows[r].key.model == model && rows[r].key.id in ids && rows[r].key.field in fields;
    }

    /** The grouped updates, deletions and insertions are the plain update of the map. */
    method SetSecretValues(model: string, allowed: set<string>, ids: seq<nat>, vals: Vals)
      requires Valid() && Distinct(ids)
      modifies this
      ensures Valid() && secrets == Updated(old(secrets), Keys(model, ids, Allowed(vals, allowed)), vals)
    {
      if vals == map[] || ids == [] {
        assert secrets == Updated(secrets, Keys(model, ids, Allowed(vals, allowed)), vals);
        return;
      }
      var batch := PlanBatch(model, allowed, ids, vals);
      ghost var done := Keys(model, ids, Allowed(vals, allowed));
      ghost var before, first := rows, next;
      ApplyBatch(batch, done, vals);
      AppliedUpdates(batch, before, first, done, vals, rows, secrets);
      secrets := Updated(secrets, done, vals);
    }

    method PlanBatch(model: string, allowed: set<string>, ids: seq<nat>, vals: Vals) returns (batch: Batch)
      requires Valid() && Distinct(ids)
      ensures Plans(batch, rows, Keys(model, ids, Allowed(vals, allowed)), vals)
    {
      var existing := Search(model, ids, vals.Keys);
      batch := Batch(map[], {}, []);
      ghost var done: set<SecretKey> := {};
      for n := 0 to |ids|
        invariant done == Keys(model, ids[..n], Allowed(vals, allowed))
        invariant Plans(batch, rows, done, vals)
      {
        assert ids[..n + 1] == ids[..n] + [ids[n]];
        batch := PlanRecord(batch, done, existing, model, allowed, ids[n], vals);
        done := done + Keys(model, [ids[n]], Allowed(vals, allowed));
      }
      assert ids[..|ids|] == ids;
    }

    method PlanRecord(b: Batch, ghost done: set<SecretKey>, existing: set<nat>, model: string, allowed: set<string>,
                      id: nat, vals: Vals)
      returns (b': Batch)
      requires Valid() && Plans(b, rows, done, vals) && forall k :: k in done ==> k.model != model || k.id != id
      requires existing <= rows.Keys
      requires forall r :: r in rows && rows[r].key in Keys(model, [id], vals.Keys) ==> r in existing
      ensures Plans(b', rows, done + Keys(model, [id], Allowed(vals, allowed)), vals)
    {
      b' := b;
      var todo := vals.Keys;
      while todo != {}
        invariant todo <= vals.Keys
        invariant Plans(b', rows, done + Keys(model, [id], Allowed(vals, allowed) - todo), vals)
      {
        var f :| f in todo;
        ghost var before := Keys(model, [id], Allowed(vals, allowed) - todo);
        todo := todo - {f};
        if f in allowed {
          var k := SecretKey(model, id, f);
          b' := PlanOne(b', done + before, existing, k, vals);
          assert done + before + {k} == done + Keys(model, [id], Allowed(vals, allowed) - todo);
        } else {
          assert before == Keys(model, [id], Allowed(vals, allowed) - todo);
        }
      }
      assert Allowed(vals, allowed) - {} == Allowed(vals, allowed);
    }

    method PlanOne(b: Batch, ghost done: set<SecretKey>, existing: set<nat>, k: SecretKey, vals: Vals)
      returns (b': Batch)
      requires Valid() && Plans(b, rows, done, vals) && k !in done && k.field in vals
      requires existing <= rows.Keys && forall r :: r in rows && rows[r].key == k ==> r in existing
      ensures Plans(b', rows, done + {k}, vals)
    {
      var value := vals[k.field];
      if r :| r in existing && rows[r].key == k {
        RowPlanned(b, rows, done, vals, k, r);
        if value.None? {
          b' := b.(deletions := b.deletions + {r});
        } else {
          var group := if value.value in b.updates then b.updates[value.value] else {};
          b' := b.(updates := b.updates[value.value := group + {r}]);
        }
      } else if value.None? {
        b' := b;
      } else {
        b' := b.(additions := b.additions + [Row(k, value.value)]);
        AdditionPlanned(b.additions, rows, done, vals, k);
      }
    }

    method WriteGroups(b: Batch, ghost done: set<SecretKey>, vals: Vals)
      requires Plans(b, rows, done, vals)
      modifies this`rows
      ensures rows == Rewritten(old(rows), done, vals)
    {
      ghost var before := rows;
      var todo := b.updates.Keys;
      ghost var written: set<string> := {};
      assert rows == RewrittenFor(before, done, vals, {});
      while todo != {}
        invariant todo <= b.updates.Keys && written == b.updates.Keys - todo
        invariant rows == RewrittenFor(before, done, vals, written)
      {
        var value :| value in todo;
        GroupWritten(b.updates, before, done, vals, written, value);
        rows, todo, written := WriteData(rows, b.updates[value], value), todo - {value}, written + {value};
      }
      assert RewrittenFor(before, done, vals, b.updates.Keys) == Rewritten(before, done, vals);
    }

    method CreateRows(additions: seq<Row>)
      requires forall r :: r in rows ==> r < next
      modifies this`rows, this`next
      ensures next == old(next) + |additions|
      ensures forall r :: r in rows <==> r in old(rows) || old(next) <= r < next
      ensures forall r :: r in old(rows) ==> rows[r] == old(rows)[r]
      ensures forall j :: 0 <= j < |additions| ==> rows[old(next) + j] == additions[j]
    {
      for i := 0 to |additions|
        invariant next == old(next) + i
        invariant forall r :: r in rows <==> r in old(rows) || old(next) <= r < next
        invariant forall r :: r in old(rows) ==> rows[r] == old(rows)[r]
        invariant forall j :: 0 <= j < i ==> rows[old(next) + j] == additions[j]
      {
        rows, next := rows[next := additions[i]], next + 1;
      }
    }

    method ApplyBatch(b: Batch, ghost done: set<SecretKey>, vals: Vals)
      requires Valid() && Plans(b, rows, done, vals)
      modifies this`rows, this`next
      ensures Applied(b, old(rows), old(next), done, vals, rows)
      ensures forall r :: r in rows ==> r < next
    {
      ghost var before, first := rows, next;
      WriteGroups(b, done, vals);
      CreateRows(b.additions);
      ghost var larger := rows;
      rows := rows - b.deletions;
      BatchApplied(b, before, first, done, vals, larger);
    }

    // All secrets of some records go.
    method UnlinkRecords(model: string, ids: seq<nat>)
      requires Valid()
      modifies this
      ensures Valid()
      ensures secrets == map k | k in old(secrets) && !(k.model == model && k.id in ids) :: old(secrets)[k]
    {
      var found := set r | r in rows && rows[r].key.model == model && rows[r].key.id in ids;
      ghost var before := rows;
      rows := rows - found;
      secrets := map k | k in secrets && !(k.model == model && k.id in ids) :: secrets[k];
      forall k | k in secrets
        ensures exists r :: r in rows && rows[r].key == k
      {
        var r :| r in before && before[r].key == k;
        assert r in rows;
      }
    }

    // The rows found, collected by record and field.
    method Read(model: string, ids: seq<nat>, fields: set<string>) returns (r: map<nat, map<string, string>>)
      requires Valid()
      ensures Shows(r, model, map k | k in secrets && k in Keys(model, ids, fields) :: secrets[k])
    {
      var found := Search(model, ids, fields);
      ghost var seen;
      r, seen := Collect(model, found);
      FoundSecrets(rows, secrets, found, seen, Keys(model, ids, fields));
    }

    method Collect(model: string, found: set<nat>)
      returns (r: map<nat, map<string, string>>, ghost seen: map<SecretKey, string>)
      requires forall q :: q in found ==> q in rows && rows[q].key.model == model
      ensures Shows(r, model, seen) && Sees(rows, found, seen)
    {
      var todo := found;
      r, seen := map[], map[];
      while todo != {}
        invariant todo <= found && Shows(r, model, seen) && Sees(rows, found - todo, seen)
      {
        var q :| q in todo;
        var row := rows[q];
        ShowsOneMore(r, model, seen, row);
        r := Put(r, row);
        SeesOneMore(rows, found - todo, seen, q);
        assert found - todo + {q} == found - (todo - {q});
        todo, seen := todo - {q}, seen[row.key := row.data];
      }
      assert found - {} == found;
    }
  }
}
