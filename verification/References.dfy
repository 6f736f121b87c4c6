/** Record references: cleaning up a proposed one, finding a free one, and numbering the references of
    new records after their parents. */
module References {
  import opened Basics

  // --- Decimal numbers -----------------------------------------------------------------------

  const DIGITS := "0123456789"

  function Decimal(n: nat): string {
    if n < 10 then [DIGITS[n]] else Decimal(n / 10) + [DIGITS[n % 10]]
  }

  lemma {:induction false} DecimalHasNoUnderscore(n: nat)
    ensures Decimal(n) != [] && '_' !in Decimal(n)
  {
    if n >= 10 {
      DecimalHasNoUnderscore(n / 10);
    }
  }

  lemma {:induction false} DecimalInjective(a: nat, b: nat)
    requires Decimal(a) == Decimal(b)
    ensures a == b
  {
    DecimalHasNoUnderscore(a / 10);
    DecimalHasNoUnderscore(b / 10);
    var da, db := Decimal(a), Decimal(b);
    assert da[|da| - 1] == DIGITS[a % 10] && db[|db| - 1] == DIGITS[b % 10];
    DigitsDiffer(a % 10, b % 10);
    if a >= 10 && b >= 10 {
      assert da[..|da| - 1] == Decimal(a / 10) && db[..|db| - 1] == Decimal(b / 10);
      DecimalInjective(a / 10, b / 10);
    }
  }

  lemma DigitsDiffer(a: nat, b: nat)
    requires a < 10 && b < 10 && DIGITS[a] == DIGITS[b]
    ensures a == b
  {
    assert DIGITS == ['0', '1', '2', '3', '4', '5', '6', '7', '8', '9'];
  }

  // The number that digits stand for.
  function ReadDecimal(s: string): int {
    if s == [] then 0 else 10 * ReadDecimal(s[..|s| - 1]) + (s[|s| - 1] as int - '0' as int)
  }

  /** A number is read back from its print, which is made of digits. */
  lemma {:induction false} DecimalRead(n: nat)
    ensures ReadDecimal(Decimal(n)) == n && forall c :: c in Decimal(n) ==> '0' <= c <= '9'
  {
    assert DIGITS == ['0', '1', '2', '3', '4', '5', '6', '7', '8', '9'];
    var d := Decimal(n);
    if n >= 10 {
      DecimalRead(n / 10);
      assert d[..|d| - 1] == Decimal(n / 10);
    } else {
      assert d[..|d| - 1] == [] && ReadDecimal([]) == 0;
    }
  }

  // What stands before and after the last underscore is determined.
  lemma LastUnderscore(a: string, x: string, b: string, y: string)
    requires a + "_" + x == b + "_" + y && '_' !in x && '_' !in y
    ensures a == b && x == y
  {
    var s := a + "_" + x;
    assert s[|a| + 1..] == x && s[|b| + 1..] == y;
    assert s[|a|] == '_' && s[|b|] == '_';
    assert forall i :: |a| < i < |s| ==> s[i] == x[i - |a| - 1];
    assert forall i :: |b| < i < |s| ==> s[i] == y[i - |b| - 1];
    assert |a| == |b|;
    assert a == s[..|a|] && b == s[..|b|];
  }

  // --- Cleaning up ---------------------------------------------------------------------------

  predicate IsBlank(c: char) { c in " \t\n\r" }

  function StripLeft(s: string): string {
    if s != [] && IsBlank(s[0]) then StripLeft(s[1..]) else s
  }

  function StripRight(s: string): string {
    if s != [] && IsBlank(s[|s| - 1]) then StripRight(s[..|s| - 1]) else s
  }

  function Lower(c: char): char {
    if 'A' <= c <= 'Z' then c - 'A' + 'a' else c
  }

  // Blanks become underscores, letters lower case, and all that is not allowed is dropped.
  function Clean(s: string, allowed: char -> bool): (r: string)
    ensures forall c :: c in r ==> allowed(c)
  {
    if s == [] then []
    else
      var c := if s[0] == ' ' then '_' else Lower(s[0]);
      (if allowed(c) then [c] else []) + Clean(s[1..], allowed)
  }

  /** The reference made from a proposed one: itself if it matches the pattern, else what is left of it after
      cleaning, else the generic reference of the model. */
  function Fixed(source: string, allowed: char -> bool, generic: string): (r: string)
    requires generic != [] && (forall c :: c in generic ==> allowed(c))
    ensures r != [] && (forall c :: c in r ==> allowed(c))
    ensures source != [] && (forall c :: c in source ==> allowed(c)) ==> r == source
  {
    if source != [] && forall c :: c in source ==> allowed(c) then source
    else
      var cleaned := Clean(StripRight(StripLeft(source)), allowed);
      if cleaned != [] then cleaned else generic
  }

  lemma {:induction false} CleanJoined(a: string, b: string, allowed: char -> bool)
    ensures Clean(a + b, allowed) == Clean(a, allowed) + Clean(b, allowed)
  {
    if a == [] {
      assert a + b == b;
    } else {
      assert (a + b)[1..] == a[1..] + b;
      CleanJoined(a[1..], b, allowed);
    }
  }

  // What becomes of one character.
  function Cleaned(c: char, allowed: char -> bool): string {
    if c == ' ' then "_"
    else if 'A' <= c <= 'Z' then [('a' as int + (c as int - 'A' as int)) as char]
    else if allowed(c) then [c]
    else ""
  }

  lemma CleanedOne(c: char, allowed: char -> bool)
    requires allowed('_') && forall x :: 'a' <= x <= 'z' ==> allowed(x)
    ensures Clean([c], allowed) == Cleaned(c, allowed)
  {
    assert [c][1..] == [] && Clean([], allowed) == [];
  }

  /** Character by character: a blank becomes an underscore and a capital a small letter, and what is then not allowed
      goes. */
  lemma CleanedAt(a: string, c: char, b: string, allowed: char -> bool)
    requires allowed('_') && forall x :: 'a' <= x <= 'z' ==> allowed(x)
    ensures Clean(a + [c] + b, allowed) == Clean(a, allowed) + Cleaned(c, allowed) + Clean(b, allowed)
  {
    hide Clean, Cleaned;
    CleanJoined(a + [c], b, allowed);
    CleanJoined(a, [c], allowed);
    CleanedOne(c, allowed);
  }

  // --- Finding a free reference --------------------------------------------------------------

  function Candidate(base: string, counter: nat): string {
    if counter <= 1 then base else base + "_" + Decimal(counter)
  }

  lemma CandidatesDiffer(base: string, i: nat, j: nat)
    requires 1 <= i < j
    ensures Candidate(base, i) != Candidate(base, j)
  {
    DecimalHasNoUnderscore(i);
    DecimalHasNoUnderscore(j);
    if i > 1 && Candidate(base, i) == Candidate(base, j) {
      LastUnderscore(base, Decimal(i), base, Decimal(j));
      DecimalInjective(i, j);
    }
  }

  ghost function CandidatesBelow(base: string, counter: nat): set<string> {
    set i | 1 <= i < counter :: Candidate(base, i)
  }

  lemma CandidatesCount(base: string, counter: nat)
    requires counter >= 1
    ensures |CandidatesBelow(base, counter)| == counter - 1
  {
    var candidate := (n: nat) => Candidate(base, n);
    forall i: nat, j: nat | 1 <= i < j
      ensures candidate(i) != candidate(j)
    {
      CandidatesDiffer(base, i, j);
    }
    ImageSize(candidate, counter);
    forall c | c in CandidatesBelow(base, counter)
      ensures c in set i: nat | 1 <= i < counter :: candidate(i)
    {
      var i: nat :| 1 <= i < counter && c == Candidate(base, i);
      assert c == candidate(i);
    }
    assert CandidatesBelow(base, counter) == set i: nat | 1 <= i < counter :: candidate(i);
  }

  lemma {:induction false} ImageSize<T(!new)>(f: nat -> T, n: nat)
    requires n >= 1 && forall i: nat, j: nat :: 1 <= i < j ==> f(i) != f(j)
    ensures |set i: nat | 1 <= i < n :: f(i)| == n - 1
  {
    if n > 1 {
      ImageSize(f, n - 1);
      assert (set i: nat | 1 <= i < n :: f(i)) == (set i: nat | 1 <= i < n - 1 :: f(i)) + {f(n - 1)};
    }
  }

  // As many collisions as `counter - 1` need as many taken references.
  lemma CollisionsTaken(taken: set<string>, base: string, counter: nat)
    requires counter >= 1 && forall i :: 1 <= i < counter ==> Candidate(base, i) in taken
    ensures counter - 1 <= |taken|
  {
    CandidatesCount(base, counter);
    SubsetSize(CandidatesBelow(base, counter), taken);
  }

  /** The number of the first candidate that is not taken. */
  ghost predicate FirstFree(taken: set<string>, base: string, counter: nat) {
    && 1 <= counter
    && Candidate(base, counter) !in taken
    && forall i :: 1 <= i < counter ==> Candidate(base, i) in taken
  }

  function FreeFrom(taken: set<string>, base: string, counter: nat): (r: string)
    requires counter >= 1 && forall i :: 1 <= i < counter ==> Candidate(base, i) in taken
    ensures r !in taken
    ensures exists n :: FirstFree(taken, base, n) && r == Candidate(base, n)
    decreases |taken| + 2 - counter
  {
    CollisionsTaken(taken, base, counter);
    if Candidate(base, counter) in taken then
      CollisionsTaken(taken, base, counter + 1);
      FreeFrom(taken, base, counter + 1)
    else
      assert FirstFree(taken, base, counter);
      Candidate(base, counter)
  }

  /** A reference that no record of the model has yet. */
  function Free(taken: set<string>, base: string): (r: string)
    ensures r !in taken
    ensures base !in taken ==> r == base
  {
    FreeFrom(taken, base, 1)
  }

  /** Main result: the search ends after at most as many collisions as references are taken, with the first
      free candidate, made of allowed characters only. */
  method GenerateOrFixReference(source: string, taken: set<string>, allowed: char -> bool, generic: string)
    returns (reference: string, counter: nat)
    requires generic != [] && (forall c :: c in generic ==> allowed(c))
    requires allowed('_') && forall c :: c in DIGITS ==> allowed(c)
    ensures FirstFree(taken, Fixed(source, allowed, generic), counter)
    ensures reference == Candidate(Fixed(source, allowed, generic), counter)
    ensures reference == Free(taken, Fixed(source, allowed, generic))
    ensures counter - 1 <= |taken|
    ensures forall c :: c in reference ==> allowed(c)
  {
    hide Decimal, Fixed;
    var base := Fixed(source, allowed, generic);
    counter := 1;
    reference := base;
    while reference in taken
      invariant counter >= 1 && reference == Candidate(base, counter)
      invariant forall i :: 1 <= i < counter ==> Candidate(base, i) in taken
      invariant FreeFrom(taken, base, 1) == FreeFrom(taken, base, counter)
      decreases |taken| + 2 - counter
    {
      CollisionsTaken(taken, base, counter);
      CollisionsTaken(taken, base, counter + 1);
      counter := counter + 1;
      reference := base + "_" + Decimal(counter);
    }
    CollisionsTaken(taken, base, counter);
    CandidateAllowed(base, counter, allowed);
  }

  /** It is the proposed reference, or that with the first free one of the suffixes `_2`, `_3` and so on. */
  lemma FreeSuffix(taken: set<string>, base: string)
    ensures var r := Free(taken, base);
            if base !in taken then r == base
            else exists n :: n >= 2 && r == base + "_" + Decimal(n) && r !in taken
                             && forall i :: 2 <= i < n ==> base + "_" + Decimal(i) in taken
  {
    hide Decimal;
    assert Free(taken, base) == FreeFrom(taken, base, 1);
    var n: nat :| FirstFree(taken, base, n) && FreeFrom(taken, base, 1) == Candidate(base, n);
    if base in taken {
      assert Candidate(base, 1) == base;
      forall i | 2 <= i < n
        ensures base + "_" + Decimal(i) in taken
      {
        assert Candidate(base, i) in taken;
      }
    }
  }

  lemma CandidateAllowed(base: string, counter: nat, allowed: char -> bool)
    requires (forall c :: c in base ==> allowed(c)) && allowed('_') && (forall c :: c in DIGITS ==> allowed(c))
    ensures forall c :: c in Candidate(base, counter) ==> allowed(c)
  {
    DecimalDigits(counter);
  }

  lemma {:induction false} DecimalDigits(n: nat)
    ensures forall c :: c in Decimal(n) ==> c in DIGITS
  {
    if n >= 10 {
      DecimalDigits(n / 10);
    }
  }

  // --- Numbering after the parent --------------------------------------------------------------

  // `reference` is what the caller gave, `parent` the id of the parent record, if any.
  datatype NewRecord = NewRecord(reference: Option<string>, parent: Option<nat>)

  // A given reference is kept if it has a letter or a digit.
  predicate HasSymbol(s: string) {
    exists i :: 0 <= i < |s| && ('0' <= s[i] <= '9' || 'a' <= s[i] <= 'z' || 'A' <= s[i] <= 'Z')
  }

  predicate Kept(r: NewRecord) { r.reference.Some? && HasSymbol(r.reference.value) }

  // What the generated references of a record start with: its parent's reference, or `no`.
  function Prefix(parents: map<nat, string>, r: NewRecord): string {
    if r.parent.Some? && r.parent.value in parents then parents[r.parent.value] else "no"
  }

  function Group(parents: map<nat, string>, r: NewRecord): Option<nat> {
    if r.parent.Some? && r.parent.value in parents then r.parent else None
  }

  function Numbered(prefix: string, model: string, index: nat): string {
    prefix + "_" + model + "_" + Decimal(index)
  }

  // How many of the first `k` records get a generated reference in group `g`.
  function Generated(parents: map<nat, string>, rs: seq<NewRecord>, k: nat, g: Option<nat>): nat
    requires k <= |rs|
  {
    if k == 0 then 0
    else Generated(parents, rs, k - 1, g) + (if !Kept(rs[k - 1]) && Group(parents, rs[k - 1]) == g then 1 else 0)
  }

  lemma {:induction false} GeneratedGrows(parents: map<nat, string>, rs: seq<NewRecord>, k: nat, l: nat, g: Option<nat>)
    requires k <= l <= |rs|
    ensures Generated(parents, rs, k, g) <= Generated(parents, rs, l, g)
  {
    if k < l {
      GeneratedGrows(parents, rs, k, l - 1, g);
    }
  }

  // The reference of record `k`: its own, or the next number of its group.
  function Populated(parents: map<nat, string>, model: string, rs: seq<NewRecord>, k: nat): string
    requires k < |rs|
  {
    if Kept(rs[k]) then rs[k].reference.value
    else Numbered(Prefix(parents, rs[k]), model, Generated(parents, rs, k + 1, Group(parents, rs[k])))
  }

  // The records up to `k` that get a generated reference in the group of record `k`.
  ghost function Peers(parents: map<nat, string>, rs: seq<NewRecord>, k: nat, g: Option<nat>): set<nat>
    requires k <= |rs|
  {
    set j: nat | j < k && !Kept(rs[j]) && Group(parents, rs[j]) == g
  }

  lemma {:induction false} GeneratedCounts(parents: map<nat, string>, rs: seq<NewRecord>, k: nat, g: Option<nat>)
    requires k <= |rs|
    ensures Generated(parents, rs, k, g) == |Peers(parents, rs, k, g)|
  {
    hide Kept, Group;
    if k > 0 {
      GeneratedCounts(parents, rs, k - 1, g);
      if !Kept(rs[k - 1]) && Group(parents, rs[k - 1]) == g {
        assert Peers(parents, rs, k, g) == Peers(parents, rs, k - 1, g) + {k - 1};
      } else {
        assert Peers(parents, rs, k, g) == Peers(parents, rs, k - 1, g);
      }
    } else {
      assert Peers(parents, rs, k, g) == {};
    }
  }

  /** A reference with a letter or a digit is kept; else it is made of the reference of the parent, or `no`, the one of
      the model, and the number of the record among those that get one after the same parent. */
  lemma PopulatedReads(parents: map<nat, string>, model: string, rs: seq<NewRecord>, k: nat)
    requires k < |rs|
    ensures var r, made := rs[k], Populated(parents, model, rs, k);
            if r.reference.Some? && HasSymbol(r.reference.value) then made == r.reference.value
            else if r.parent.Some? && r.parent.value in parents then
              made == parents[r.parent.value] + "_" + model + "_" + Decimal(|Peers(parents, rs, k + 1, r.parent)|)
            else made == "no_" + model + "_" + Decimal(|Peers(parents, rs, k + 1, None)|)
  {
    GeneratedCounts(parents, rs, k + 1, Group(parents, rs[k]));
    assert "no" + "_" == "no_";
  }

  method PrePopulateReferences(parents: map<nat, string>, model: string, records: array<NewRecord>)
    modifies records
    ensures forall k :: 0 <= k < records.Length ==>
              records[k] == old(records[k]).(reference := Some(Populated(parents, model, old(records[..]), k)))
  {
    hide HasSymbol, Numbered, Prefix, Group;
    ghost var rs := records[..];
    var indices: map<Option<nat>, nat> := map[];
    for k := 0 to records.Length
      invariant forall j :: k <= j < records.Length ==> records[j] == rs[j]
      invariant forall j :: 0 <= j < k ==> Filled(parents, model, rs, j, records[j])
      invariant forall g :: (if g in indices then indices[g] else 0) == Generated(parents, rs, k, g)
    {
      if !Kept(records[k]) {
        var g := Group(parents, records[k]);
        indices := indices[g := (if g in indices then indices[g] else 0) + 1];
        records[k] := records[k].(reference := Some(Numbered(Prefix(parents, records[k]), model, indices[g])));
      }
      assert Filled(parents, model, rs, k, records[k]);
    }
    assert forall k :: 0 <= k < records.Length ==> Filled(parents, model, rs, k, records[k]);
  }

  ghost predicate Filled(parents: map<nat, string>, model: string, rs: seq<NewRecord>, k: nat, r: NewRecord)
    requires k < |rs|
  {
    r == rs[k].(reference := Some(Populated(parents, model, rs, k)))
  }

  // Record `k` gets a generated reference, numbered in group `g`.
  predicate GeneratedIn(parents: map<nat, string>, rs: seq<NewRecord>, k: int, g: Option<nat>) {
    0 <= k < |rs| && !Kept(rs[k]) && Group(parents, rs[k]) == g
  }

  /** One record without a parent and one whose parent is called `no` get generated references. */
  ghost predicate ClashWithNo(parents: map<nat, string>, rs: seq<NewRecord>) {
    exists j, k, p ::
      GeneratedIn(parents, rs, j, None) && GeneratedIn(parents, rs, k, Some(p)) && p in parents && parents[p] == "no"
  }

  ghost predicate DistinctReferences(parents: map<nat, string>, model: string, rs: seq<NewRecord>) {
    forall j, k :: 0 <= j < k < |rs| && !Kept(rs[j]) && !Kept(rs[k]) ==>
      Populated(parents, model, rs, j) != Populated(parents, model, rs, k)
  }

  // Equal generated references are of two groups with one prefix.
  lemma SameGenerated(parents: map<nat, string>, model: string, rs: seq<NewRecord>, j: nat, k: nat)
    requires j < k < |rs| && !Kept(rs[j]) && !Kept(rs[k])
    requires Populated(parents, model, rs, j) == Populated(parents, model, rs, k)
    ensures Group(parents, rs[j]) != Group(parents, rs[k]) && Prefix(parents, rs[j]) == Prefix(parents, rs[k])
  {
    var g, h := Group(parents, rs[j]), Group(parents, rs[k]);
    var m, n := Generated(parents, rs, j + 1, g), Generated(parents, rs, k + 1, h);
    DecimalHasNoUnderscore(m);
    DecimalHasNoUnderscore(n);
    var p, q := Prefix(parents, rs[j]), Prefix(parents, rs[k]);
    LastUnderscore(p + "_" + model, Decimal(m), q + "_" + model, Decimal(n));
    DecimalInjective(m, n);
    assert (p + "_" + model)[..|p|] == p && (q + "_" + model)[..|q|] == q;
    GeneratedGrows(parents, rs, j + 1, k, g);
  }

  // The first record of a group gets number 1.
  lemma {:induction false} FirstOfGroup(parents: map<nat, string>, rs: seq<NewRecord>, k: nat, g: Option<nat>)
    returns (j: nat)
    requires GeneratedIn(parents, rs, k, g)
    ensures j <= k && GeneratedIn(parents, rs, j, g) && Generated(parents, rs, j + 1, g) == 1
    decreases k
  {
    if i :| 0 <= i < k && GeneratedIn(parents, rs, i, g) {
      j := FirstOfGroup(parents, rs, i, g);
    } else {
      NoneGenerated(parents, rs, k, g);
      j := k;
    }
  }

  lemma {:induction false} NoneGenerated(parents: map<nat, string>, rs: seq<NewRecord>, k: nat, g: Option<nat>)
    requires k <= |rs| && forall i :: 0 <= i < k ==> !GeneratedIn(parents, rs, i, g)
    ensures Generated(parents, rs, k, g) == 0
  {
    if k > 0 {
      assert !GeneratedIn(parents, rs, k - 1, g);
      NoneGenerated(parents, rs, k - 1, g);
    }
  }

  /** Main result: the references generated in one batch are pairwise distinct exactly if it is not the case that one
      record has no parent and another has the parent called `no`. */
  lemma GeneratedReferencesDistinctIff(parents: map<nat, string>, model: string, rs: seq<NewRecord>)
    requires forall p, q :: p in parents && q in parents && parents[p] == parents[q] ==> p == q
    ensures DistinctReferences(parents, model, rs) <==> !ClashWithNo(parents, rs)
  {
    hide Kept, Generated, Populated;
    if j, k :| && 0 <= j < k < |rs| && !Kept(rs[j]) && !Kept(rs[k])
               && Populated(parents, model, rs, j) == Populated(parents, model, rs, k) {
      SameGenerated(parents, model, rs, j, k);
      var g, h := Group(parents, rs[j]), Group(parents, rs[k]);
      assert GeneratedIn(parents, rs, j, g) && GeneratedIn(parents, rs, k, h);
      assert ClashWithNo(parents, rs);
    }
    if ClashWithNo(parents, rs) {
      ClashCollides(parents, model, rs);
    }
  }

  lemma ClashCollides(parents: map<nat, string>, model: string, rs: seq<NewRecord>)
    requires ClashWithNo(parents, rs)
    ensures !DistinctReferences(parents, model, rs)
  {
    hide Kept, Generated, Numbered, Populated, GeneratedIn;
    var j, k, p :| && GeneratedIn(parents, rs, j, None) && GeneratedIn(parents, rs, k, Some(p))
                   && p in parents && parents[p] == "no";
    InRange(parents, rs, j, None);
    InRange(parents, rs, k, Some(p));
    var j1 := FirstOfGroup(parents, rs, j, None);
    var k1 := FirstOfGroup(parents, rs, k, Some(p));
    FirstPopulated(parents, model, rs, j1, None);
    FirstPopulated(parents, model, rs, k1, Some(p));
    InRange(parents, rs, j1, None);
    InRange(parents, rs, k1, Some(p));
  }

  lemma InRange(parents: map<nat, string>, rs: seq<NewRecord>, k: int, g: Option<nat>)
    requires GeneratedIn(parents, rs, k, g)
    ensures 0 <= k < |rs| && !Kept(rs[k]) && Group(parents, rs[k]) == g
  {
  }

  lemma FirstPopulated(parents: map<nat, string>, model: string, rs: seq<NewRecord>, k: nat, g: Option<nat>)
    requires GeneratedIn(parents, rs, k, g) && Generated(parents, rs, k + 1, g) == 1
    ensures Populated(parents, model, rs, k)
         == Numbered(if g.Some? && g.value in parents then parents[g.value] else "no", model, 1)
  {
    hide Numbered, Generated;
  }
}
