/** The parse of a code, and what comes out of it: the code as it was written, with the secrets in place of their
    markers. */
module KeyReplacement {
  import opened Basics
  import opened Text
  import opened KeyMarkers
  import opened KeySubstitution
  import opened KeyParsing
  import opened KeyLookup
  import Masking

  // --- Code as it is written -------------------------------------------------------------------------

  datatype Part = Words(text: string) | Reference(kind: string, ref: string)

  function Written(p: Part): string {
    match p
    case Words(text) => text
    case Reference(kind, ref) => "#!cxtower" + "." + kind + "." + ref + "!#"
  }

  function WrittenCode(ps: seq<Part>): string {
    if ps == [] then [] else Written(ps[0]) + WrittenCode(ps[1..])
  }

  /** Text without `#` and `!`, and markers written from a type and a reference. */
  ghost predicate Regular(ps: seq<Part>) {
    forall p :: p in ps ==>
      match p
      case Words(text) => text != [] && forall c :: c in text ==> c != '#' && c != '!'
      case Reference(kind, ref) => Word(kind) && Word(ref)
  }

  predicate HasSecret(p: Part, secrets: map<string, string>) {
    p.Reference? && p.kind == "secret" && p.ref in secrets && secrets[p.ref] != []
  }

  function EscapedLineEnds(s: string): string {
    if s == [] then [] else (if s[0] == '\n' then "\\n" else [s[0]]) + EscapedLineEnds(s[1..])
  }

  /** A marker of a secret becomes the secret, between double quotes and on one line if it goes into Python code;
      all else stays. */
  function Filled(p: Part, secrets: map<string, string>, pythonicMode: bool): string {
    if HasSecret(p, secrets) then
      if pythonicMode then "\"" + EscapedLineEnds(secrets[p.ref]) + "\"" else secrets[p.ref]
    else Written(p)
  }

  function FilledCode(ps: seq<Part>, secrets: map<string, string>, pythonicMode: bool): string {
    if ps == [] then [] else Filled(ps[0], secrets, pythonicMode) + FilledCode(ps[1..], secrets, pythonicMode)
  }

  /** The secrets that are put in place cannot open another marker: they do not hold `#!`, nor start with `!`. */
  ghost predicate Harmless(ps: seq<Part>, secrets: map<string, string>, pythonicMode: bool) {
    forall p :: p in ps && HasSecret(p, secrets) ==> Quiet(Filled(p, secrets, pythonicMode))
  }

  ghost predicate Quiet(s: string) {
    s != [] && s[0] != '!' && forall i :: 0 <= i < |s| - 1 ==> !(s[i] == '#' && s[i + 1] == '!')
  }

  // --- Replacing one marker --------------------------------------------------------------------------

  ghost predicate IsReference(s: string) {
    exists kind, ref :: Word(kind) && Word(ref) && s == Written(Reference(kind, ref))
  }

  lemma BetweenDelimiters(s: string, body: string)
    requires s == "#!" + body + "!#" && forall c :: c in body ==> c != '#' && c != '!'
    ensures |s| >= 4 && s[0] == '#' && s[1] == '!' && s[|s| - 2] == '!' && s[|s| - 1] == '#'
    ensures forall i :: 0 < i < |s| - 1 ==> s[i] != '#'
    ensures forall i :: 1 < i < |s| - 2 ==> s[i] != '!'
  {
    assert forall i :: 2 <= i < |s| - 2 ==> s[i] == body[i - 2] && body[i - 2] in body;
  }

  lemma Regrouped(start: string, name: string, dot: string, kind: string, ref: string, end: string)
    ensures start + name + dot + kind + dot + ref + end == start + (name + dot + kind + dot + ref) + end
  {
  }

  lemma WrittenBetween(kind: string, ref: string)
    requires Word(kind) && Word(ref)
    ensures var body := "cxtower" + "." + kind + "." + ref;
            Written(Reference(kind, ref)) == "#!" + body + "!#" && forall c :: c in body ==> c != '#' && c != '!'
  {
    assert "#!cxtower" == "#!" + "cxtower";
    Regrouped("#!", "cxtower", ".", kind, ref, "!#");
    NoDelimiter(kind, ref);
  }

  lemma NoDelimiter(kind: string, ref: string)
    requires Word(kind) && Word(ref)
    ensures forall c :: c in "cxtower" + "." + kind + "." + ref ==> c != '#' && c != '!'
  {
  }

  // Where a marker has a hash and where it has an exclamation mark.
  lemma ReferenceChars(s: string)
    requires IsReference(s)
    ensures |s| >= 4 && s[0] == '#' && s[1] == '!' && s[|s| - 2] == '!' && s[|s| - 1] == '#'
    ensures forall i :: 0 < i < |s| - 1 ==> s[i] != '#'
    ensures forall i :: 1 < i < |s| - 2 ==> s[i] != '!'
  {
    var kind, ref :| Word(kind) && Word(ref) && s == Written(Reference(kind, ref));
    WrittenBetween(kind, ref);
    BetweenDelimiters(s, "cxtower" + "." + kind + "." + ref);
  }

  ghost predicate Segments(segs: seq<string>) {
    forall n :: 0 <= n < |segs| ==> IsReference(segs[n]) || Quiet(segs[n])
  }

  lemma NoBangFirst(segs: seq<string>)
    requires Segments(segs)
    ensures Concat(segs) != [] ==> Concat(segs)[0] != '!'
  {
    if segs != [] && IsReference(segs[0]) {
      ReferenceChars(segs[0]);
    }
  }

  // A marker before some text is not another marker and more.
  lemma NoPrefix(a: string, b: string, key: string)
    requires IsReference(a) && IsReference(key) && key <= a + b
    ensures a == key
  {
    ReferenceChars(a);
    ReferenceChars(key);
    var n := if |a| < |key| then |a| else |key|;
    assert (a + b)[n - 2] == a[n - 2] == key[n - 2];
    assert |a| == |key|;
    assert (a + b)[..|key|] == a;
  }

  // A marker starts in a segment only if it is that segment.
  lemma NoStart(a: string, b: string, key: string, i: nat)
    requires IsReference(key) && (IsReference(a) || Quiet(a)) && a != key && (b != [] ==> b[0] != '!') && i < |a|
    ensures !At(a + b, i, key)
  {
    ReferenceChars(key);
    AtChars(a + b, i, key);
    if At(a + b, i, key) {
      assert (a + b)[i + 0] == '#' && (a + b)[i + 1] == '!';
      if IsReference(a) {
        ReferenceChars(a);
        assert i == 0 && (a + b)[0..] == a + b;
        NoPrefix(a, b, key);
      }
    }
  }

  function Swapped(seg: string, key: string, value: string): string {
    if seg == key then value else seg
  }

  function SwappedAll(segs: seq<string>, key: string, value: string): (r: seq<string>)
    ensures |r| == |segs| && forall n :: 0 <= n < |segs| ==> r[n] == Swapped(segs[n], key, value)
  {
    seq(|segs|, n requires 0 <= n < |segs| => Swapped(segs[n], key, value))
  }

  lemma {:induction false} ReplaceInSegments(segs: seq<string>, key: string, value: string)
    requires Segments(segs) && IsReference(key)
    ensures Replace(Concat(segs), key, value) == Concat(SwappedAll(segs, key, value))
  {
    ReferenceChars(key);
    if segs != [] {
      var a, b := segs[0], Concat(segs[1..]);
      ReplaceInSegments(segs[1..], key, value);
      assert SwappedAll(segs, key, value)[1..] == SwappedAll(segs[1..], key, value);
      if a == key {
        ReplaceFirst(b, key, value);
      } else {
        NoBangFirst(segs[1..]);
        forall i | 0 <= i < |a|
          ensures !At(a + b, i, key)
        {
          NoStart(a, b, key, i);
        }
        ReplaceCopies(a, b, key, value);
      }
    }
  }

  // --- Replacing all of them -------------------------------------------------------------------------

  function Final(seg: string, keys: seq<string>, value: string -> Option<string>): string {
    if seg in keys && value(seg).Some? then value(seg).value else seg
  }

  function FinalAll(segs: seq<string>, keys: seq<string>, value: string -> Option<string>): (r: seq<string>)
    ensures |r| == |segs| && forall n :: 0 <= n < |segs| ==> r[n] == Final(segs[n], keys, value)
  {
    seq(|segs|, n requires 0 <= n < |segs| => Final(segs[n], keys, value))
  }

  // Keys that have a value are markers, and their values are no markers.
  ghost predicate Sensible(keys: seq<string>, value: string -> Option<string>) {
    forall k :: k in keys && value(k).Some? ==> IsReference(k) && Quiet(value(k).value)
  }

  lemma QuietIsNoReference(s: string)
    requires Quiet(s)
    ensures !IsReference(s)
  {
    assert |s| > 1 ==> !(s[0] == '#' && s[0 + 1] == '!');
    if IsReference(s) {
      ReferenceChars(s);
    }
  }

  lemma {:induction false} SubstitutedInSegments(segs: seq<string>, keys: seq<string>, value: string -> Option<string>)
    requires Segments(segs) && Sensible(keys, value) && forall i, j :: 0 <= i < j < |keys| ==> keys[i] != keys[j]
    ensures Substituted(Concat(segs), keys, value) == Concat(FinalAll(segs, keys, value))
    decreases |keys|
  {
    if keys == [] {
      assert FinalAll(segs, keys, value) == segs;
    } else {
      var k := keys[0];
      if value(k).Some? {
        var v := value(k).value;
        ReplaceInSegments(segs, k, v);
        var segs1 := SwappedAll(segs, k, v);
        SubstitutedInSegments(segs1, keys[1..], value);
        QuietIsNoReference(v);
        assert FinalAll(segs1, keys[1..], value) == FinalAll(segs, keys, value);
      } else {
        SubstitutedInSegments(segs, keys[1..], value);
        assert FinalAll(segs, keys[1..], value) == FinalAll(segs, keys, value);
      }
    }
  }

  // --- What stands in the code -----------------------------------------------------------------------

  function Pieced(ps: seq<Part>): (r: seq<string>)
    ensures |r| == |ps| && forall n :: 0 <= n < |ps| ==> r[n] == Written(ps[n])
  {
    seq(|ps|, n requires 0 <= n < |ps| => Written(ps[n]))
  }

  lemma {:induction false} WrittenIsConcat(ps: seq<Part>)
    ensures WrittenCode(ps) == Concat(Pieced(ps))
  {
    if ps != [] {
      WrittenIsConcat(ps[1..]);
      assert Pieced(ps)[1..] == Pieced(ps[1..]);
    }
  }

  lemma {:induction false} FilledIsConcat(ps: seq<Part>, secrets: map<string, string>, pythonicMode: bool,
                                          segs: seq<string>)
    requires |segs| == |ps| && forall n :: 0 <= n < |ps| ==> segs[n] == Filled(ps[n], secrets, pythonicMode)
    ensures FilledCode(ps, secrets, pythonicMode) == Concat(segs)
  {
    if ps != [] {
      FilledIsConcat(ps[1..], secrets, pythonicMode, segs[1..]);
    }
  }

  lemma ReferenceIsKey(kind: string, ref: string)
    requires Word(kind) && Word(ref)
    ensures IsKey(KEY_MARKS, Written(Reference(kind, ref)))
    ensures ExtractKeyParts(KEY_MARKS, Written(Reference(kind, ref))) == Some((kind, ref))
  {
    KeyMarksDelimit();
    NoBlankInPrefix();
    var tail := "." + kind + "." + ref;
    assert forall c :: c in tail ==> c != '!';
    assert Written(Reference(kind, ref)) == KEY_MARKS.prefix + tail + KEY_MARKS.terminator;
    WrittenIsKey(KEY_MARKS, tail);
    KeyPartsFound(KEY_MARKS, kind, ref);
  }

  lemma RegularPieces(ps: seq<Part>)
    requires Regular(ps)
    ensures Original(KEY_MARKS, Pieced(ps)) && Segments(Pieced(ps))
    ensures forall n :: 0 <= n < |ps| ==> (IsKey(KEY_MARKS, Written(ps[n])) <==> ps[n].Reference?)
  {
    KeyMarksDelimit();
    forall n | 0 <= n < |ps|
      ensures if ps[n].Reference? then IsReference(Written(ps[n])) && IsKey(KEY_MARKS, Written(ps[n]))
              else Quiet(Written(ps[n])) && Plain(Written(ps[n])) && !IsKey(KEY_MARKS, Written(ps[n]))
    {
      assert ps[n] in ps;
      match ps[n]
      case Words(text) =>
        assert forall i :: 0 <= i < |text| ==> text[i] in text;
        if IsKey(KEY_MARKS, text) {
          KeyShape(KEY_MARKS, text);
        }
      case Reference(kind, ref) => ReferenceIsKey(kind, ref);
    }
  }

  lemma {:induction false} EscapedIsReplaced(s: string)
    ensures Replace(s, "\n", Masking.LITERAL_NEWLINE) == EscapedLineEnds(s)
  {
    if s != [] {
      EscapedIsReplaced(s[1..]);
    }
  }

  lemma ShownIsFilled(p: Part, secrets: map<string, string>, pythonicMode: bool)
    requires p.Reference? && Word(p.kind) && Word(p.ref)
    ensures ShownValue(KEY_MARKS, secrets, pythonicMode, Written(p))
         == if HasSecret(p, secrets) then Some(Filled(p, secrets, pythonicMode)) else None
  {
    ReferenceIsKey(p.kind, p.ref);
    if HasSecret(p, secrets) {
      Masking.EscapedQuotes(secrets[p.ref]);
      EscapedIsReplaced(secrets[p.ref]);
    }
  }

  lemma {:induction false} ShownValuesAll(keys: seq<string>, value: string -> Option<string>, v: string)
    ensures v in ShownValues(keys, value) <==> exists k :: k in keys && value(k) == Some(v)
  {
    if keys != [] {
      var last := keys[|keys| - 1];
      ShownValuesAll(keys[..|keys| - 1], value, v);
      assert keys == keys[..|keys| - 1] + [last];
    }
  }

  /** The listed values are the secrets put in place, each once. */
  ghost predicate ListsSecrets(ps: seq<Part>, secrets: map<string, string>, pythonicMode: bool, values: seq<string>) {
    && (forall v :: v in values <==>
          exists n :: 0 <= n < |ps| && HasSecret(ps[n], secrets) && v == Filled(ps[n], secrets, pythonicMode))
    && forall i, j :: 0 <= i < j < |values| ==> values[i] != values[j]
  }

  // `keys` are the markers of the code.
  ghost predicate KeysAre(ps: seq<Part>, keys: seq<string>) {
    && (forall n :: 0 <= n < |ps| ==> (Written(ps[n]) in keys <==> ps[n].Reference?))
    && (forall k :: k in keys ==> exists n :: 0 <= n < |ps| && ps[n].Reference? && k == Written(ps[n]))
    && forall i, j :: 0 <= i < j < |keys| ==> keys[i] != keys[j]
  }

  lemma KeysOfCode(segs: seq<string>, markers: seq<(int, int)>)
    requires Original(KEY_MARKS, segs) && Leftmost(KEY_MARKS, Concat(segs), markers)
    ensures forall k :: k in Unique(Texts(Concat(segs), markers)) <==> k in segs && IsKey(KEY_MARKS, k)
  {
    KeyMarksDelimit();
    MarkersOfPieces(KEY_MARKS, segs, markers);
    KeysOfAll(KEY_MARKS, segs);
  }

  lemma PartsOfKeys(ps: seq<Part>, keys: seq<string>)
    requires forall n :: 0 <= n < |ps| ==> (IsKey(KEY_MARKS, Written(ps[n])) <==> ps[n].Reference?)
    requires forall k :: k in keys <==> k in Pieced(ps) && IsKey(KEY_MARKS, k)
    requires forall i, j :: 0 <= i < j < |keys| ==> keys[i] != keys[j]
    ensures KeysAre(ps, keys)
  {
    hide Written, IsKey;
    forall n | 0 <= n < |ps|
      ensures Written(ps[n]) in keys <==> ps[n].Reference?
    {
      assert Pieced(ps)[n] == Written(ps[n]);
    }
    forall k | k in keys
      ensures exists n :: 0 <= n < |ps| && ps[n].Reference? && k == Written(ps[n])
    {
      var n :| 0 <= n < |ps| && Pieced(ps)[n] == k;
    }
  }

  lemma KeysFound(ps: seq<Part>, markers: seq<(int, int)>)
    requires Regular(ps) && Leftmost(KEY_MARKS, WrittenCode(ps), markers)
    ensures KeysAre(ps, Unique(Texts(WrittenCode(ps), markers)))
  {
    var keys := Unique(Texts(WrittenCode(ps), markers));
    hide Written, IsKey, Leftmost, Regular, Original, Segments, KeysAre, WrittenCode;
    RegularPieces(ps);
    WrittenIsConcat(ps);
    KeysOfCode(Pieced(ps), markers);
    PartsOfKeys(ps, keys);
  }

  // What is shown for each part.
  ghost predicate ShowsFilled(ps: seq<Part>, secrets: map<string, string>, pythonicMode: bool,
                              value: string -> Option<string>) {
    forall n :: 0 <= n < |ps| && ps[n].Reference? ==>
      && value(Written(ps[n]))
           == (if HasSecret(ps[n], secrets) then Some(Filled(ps[n], secrets, pythonicMode)) else None)
      && IsReference(Written(ps[n]))
      && (HasSecret(ps[n], secrets) ==> Quiet(Filled(ps[n], secrets, pythonicMode)))
  }

  lemma PartsShown(ps: seq<Part>, secrets: map<string, string>, pythonicMode: bool)
    requires Regular(ps) && Harmless(ps, secrets, pythonicMode)
    ensures ShowsFilled(ps, secrets, pythonicMode, Shown(KEY_MARKS, secrets, pythonicMode))
  {
    hide ShownValue, Filled, Written, Quiet, Word;
    forall n | 0 <= n < |ps| && ps[n].Reference?
      ensures ShownValue(KEY_MARKS, secrets, pythonicMode, Written(ps[n]))
           == if HasSecret(ps[n], secrets) then Some(Filled(ps[n], secrets, pythonicMode)) else None
      ensures HasSecret(ps[n], secrets) ==> Quiet(Filled(ps[n], secrets, pythonicMode))
      ensures IsReference(Written(ps[n]))
    {
      assert ps[n] in ps && ps[n] == Reference(ps[n].kind, ps[n].ref);
      ShownIsFilled(ps[n], secrets, pythonicMode);
    }
  }

  lemma FilledAtEnd(ps: seq<Part>, secrets: map<string, string>, pythonicMode: bool, keys: seq<string>,
                    value: string -> Option<string>)
    requires KeysAre(ps, keys) && ShowsFilled(ps, secrets, pythonicMode, value)
    ensures Sensible(keys, value)
    ensures FilledCode(ps, secrets, pythonicMode) == Concat(FinalAll(Pieced(ps), keys, value))
  {
    hide Written, Quiet, IsReference;
    forall n | 0 <= n < |ps|
      ensures Final(Written(ps[n]), keys, value) == Filled(ps[n], secrets, pythonicMode)
    {
      assert Written(ps[n]) in keys <==> ps[n].Reference?;
    }
    FilledIsConcat(ps, secrets, pythonicMode, FinalAll(Pieced(ps), keys, value));
  }

  lemma SecretsListed(ps: seq<Part>, secrets: map<string, string>, pythonicMode: bool, keys: seq<string>,
                      value: string -> Option<string>)
    requires KeysAre(ps, keys) && ShowsFilled(ps, secrets, pythonicMode, value)
    ensures ListsSecrets(ps, secrets, pythonicMode, Unique(ShownValues(keys, value)))
  {
    hide Written, Quiet, IsReference, Filled, HasSecret;
    forall v
      ensures v in Unique(ShownValues(keys, value))
         <==> exists n :: 0 <= n < |ps| && HasSecret(ps[n], secrets) && v == Filled(ps[n], secrets, pythonicMode)
    {
      ShownValuesAll(keys, value, v);
      if n :| 0 <= n < |ps| && HasSecret(ps[n], secrets) && v == Filled(ps[n], secrets, pythonicMode) {
        SecretIsReference(ps[n], secrets);
        assert Written(ps[n]) in keys;
      }
    }
  }

  lemma SecretIsReference(p: Part, secrets: map<string, string>)
    requires HasSecret(p, secrets)
    ensures p.Reference?
  {
  }

  lemma RegularCodeFilled(ps: seq<Part>, secrets: map<string, string>, pythonicMode: bool, markers: seq<(int, int)>)
    requires Regular(ps) && Harmless(ps, secrets, pythonicMode) && Leftmost(KEY_MARKS, WrittenCode(ps), markers)
    ensures var keys, value := Unique(Texts(WrittenCode(ps), markers)), Shown(KEY_MARKS, secrets, pythonicMode);
            && Substituted(WrittenCode(ps), keys, value) == FilledCode(ps, secrets, pythonicMode)
            && ListsSecrets(ps, secrets, pythonicMode, Unique(ShownValues(keys, value)))
  {
    var keys, value := Unique(Texts(WrittenCode(ps), markers)), Shown(KEY_MARKS, secrets, pythonicMode);
    hide Regular, Harmless, Leftmost, Shown, Written, Segments, Sensible, ShowsFilled, ListsSecrets, IsKey, Original;
    KeysFound(ps, markers);
    PartsShown(ps, secrets, pythonicMode);
    RegularPieces(ps);
    WrittenIsConcat(ps);
    FilledAtEnd(ps, secrets, pythonicMode, keys, value);
    SubstitutedInSegments(Pieced(ps), keys, value);
    SecretsListed(ps, secrets, pythonicMode, keys, value);
  }

  // --- A marker in a secret --------------------------------------------------------------------------

  /** A secret may hold the marker of another one.  If that is replaced later, the held marker goes with it. */
  lemma HeldMarkerReplaced(a: string, b: string, secrets: map<string, string>, ps: seq<Part>,
                           markers: seq<(int, int)>)
    requires Word(a) && Word(b) && a != b && ps == [Reference("secret", a), Reference("secret", b)]
    requires a in secrets && b in secrets && secrets[a] == Written(Reference("secret", b)) && Quiet(secrets[b])
    requires Leftmost(KEY_MARKS, WrittenCode(ps), markers)
    ensures Substituted(WrittenCode(ps), Unique(Texts(WrittenCode(ps), markers)), Shown(KEY_MARKS, secrets, false))
         == secrets[b] + secrets[b]
    ensures FilledCode(ps, secrets, false) == Written(Reference("secret", b)) + secrets[b]
    ensures secrets[b] != Written(Reference("secret", b))
  {
    assert Word("secret");
    PairWritten(a, b);
    PairFound(ps, Written(ps[0]), Written(ps[1]), markers);
    QuietIsNoReference(secrets[b]);
    ShownIsFilled(ps[0], secrets, false);
    ShownIsFilled(ps[1], secrets, false);
    PairResolves(ps, secrets, markers);
  }

  lemma PairWritten(a: string, b: string)
    requires Word(a) && Word(b) && a != b
    ensures var ka, kb := Written(Reference("secret", a)), Written(Reference("secret", b));
            IsReference(ka) && IsReference(kb) && ka != kb && ka != [] && kb != []
  {
    hide Written, ExtractKeyParts, IsKey;
    assert Word("secret");
    ReferenceIsKey("secret", a);
    ReferenceIsKey("secret", b);
    ReferenceChars(Written(Reference("secret", a)));
    ReferenceChars(Written(Reference("secret", b)));
  }

  lemma PairFound(ps: seq<Part>, ka: string, kb: string, markers: seq<(int, int)>)
    requires Regular(ps) && |ps| == 2 && ps[0].Reference? && ps[1].Reference?
    requires ka == Written(ps[0]) && kb == Written(ps[1]) && ka != kb
    requires Leftmost(KEY_MARKS, WrittenCode(ps), markers)
    ensures WrittenCode(ps) == Concat([ka, kb]) && Unique(Texts(WrittenCode(ps), markers)) == [ka, kb]
  {
    RegularPieces(ps);
    hide Written, Regular, IsKey, Segments, WrittenCode, Unique, Original, Leftmost;
    WrittenIsConcat(ps);
    assert Pieced(ps) == [ka, kb];
    PairKeys(ka, kb, markers);
  }

  lemma PairKeys(ka: string, kb: string, markers: seq<(int, int)>)
    requires Original(KEY_MARKS, [ka, kb]) && Leftmost(KEY_MARKS, Concat([ka, kb]), markers)
    requires IsKey(KEY_MARKS, ka) && IsKey(KEY_MARKS, kb) && ka != kb
    ensures Unique(Texts(Concat([ka, kb]), markers)) == [ka, kb]
  {
    KeyMarksDelimit();
    MarkersOfPieces(KEY_MARKS, [ka, kb], markers);
    KeysOfPair(ka, kb);
  }

  lemma PairResolves(ps: seq<Part>, secrets: map<string, string>, markers: seq<(int, int)>)
    requires |ps| == 2 && HasSecret(ps[0], secrets) && HasSecret(ps[1], secrets)
    requires secrets[ps[0].ref] == Written(ps[1])
    requires IsReference(Written(ps[0])) && IsReference(Written(ps[1])) && Written(ps[0]) != Written(ps[1])
    requires ShownValue(KEY_MARKS, secrets, false, Written(ps[0])) == Some(Filled(ps[0], secrets, false))
    requires ShownValue(KEY_MARKS, secrets, false, Written(ps[1])) == Some(Filled(ps[1], secrets, false))
    ensures Substituted(Concat([Written(ps[0]), Written(ps[1])]), [Written(ps[0]), Written(ps[1])],
                        Shown(KEY_MARKS, secrets, false)) == secrets[ps[1].ref] + secrets[ps[1].ref]
    ensures FilledCode(ps, secrets, false) == Written(ps[1]) + secrets[ps[1].ref]
  {
    hide ShownValue, IsReference, Written, Substituted;
    TwoReplaced(Written(ps[0]), Written(ps[1]), secrets[ps[1].ref], Shown(KEY_MARKS, secrets, false));
    assert ps[1..] == [ps[1]] && [ps[1]][1..] == [] && secrets[ps[1].ref] + [] == secrets[ps[1].ref];
    assert FilledCode([ps[1]], secrets, false) == secrets[ps[1].ref];
  }

  lemma KeysOfPair(ka: string, kb: string)
    requires IsKey(KEY_MARKS, ka) && IsKey(KEY_MARKS, kb) && ka != kb
    ensures KeysOf(KEY_MARKS, [ka, kb]) == [ka, kb] && Unique([ka, kb]) == [ka, kb]
  {
    hide IsKey;
    var keys := [ka, kb];
    assert keys[..1] == [ka] && [ka][..0] == [];
    assert KeysOf(KEY_MARKS, [ka]) == KeysOf(KEY_MARKS, []) + [ka];
    assert KeysOf(KEY_MARKS, keys) == KeysOf(KEY_MARKS, [ka]) + [kb];
    assert Unique([]) == [] && Unique([ka]) == Unique([]) + [ka];
    assert keys == [ka] + [kb];
    UniqueMore([ka], kb);
  }

  lemma TwoReplaced(ka: string, kb: string, v: string, value: string -> Option<string>)
    requires IsReference(ka) && IsReference(kb) && ka != kb && value(ka) == Some(kb) && value(kb) == Some(v)
    ensures Substituted(Concat([ka, kb]), [ka, kb], value) == v + v
  {
    hide IsReference, Replace;
    var keys, rest := [ka, kb], [kb];
    assert keys[1..] == rest && rest[1..] == [];
    ReplaceInSegments(keys, ka, kb);
    ReplaceInSegments([kb, kb], kb, v);
    assert SwappedAll(keys, ka, kb) == [kb, kb] && SwappedAll([kb, kb], kb, v) == [v, v];
    assert Substituted(Concat(keys), keys, value) == Substituted(Concat([kb, kb]), rest, value);
    assert Substituted(Concat([kb, kb]), rest, value) == Substituted(Concat([v, v]), [], value);
    ConcatPair(v, v);
  }

  lemma ConcatPair(x: string, y: string)
    ensures Concat([x, y]) == x + y
  {
    assert [x, y][1..] == [y] && [y][1..] == [] && y + [] == y;
    assert Concat([y]) == y;
  }

  // --- The code --------------------------------------------------------------------------------------

  /** Main result: the loop makes the replacements in the order in which the markers are found, and lists each value
      once.  In code made of text and regular markers that puts the secrets in their places and nothing else. */
  method ParseCodeAndReturnKeyValues(code: string, secrets: map<string, string>, pythonicMode: bool)
    returns (code': string, keyValues: Option<seq<string>>, ghost markers: seq<(int, int)>)
    ensures Leftmost(KEY_MARKS, code, markers)
    ensures |code| <= SHORTEST ==> code' == code && keyValues.None?
    ensures |code| > SHORTEST ==>
              var keys, value := Unique(Texts(code, markers)), Shown(KEY_MARKS, secrets, pythonicMode);
              code' == Substituted(code, keys, value) && keyValues == Some(Unique(ShownValues(keys, value)))
    ensures forall ps ::
              WrittenCode(ps) == code && Regular(ps) && Harmless(ps, secrets, pythonicMode) && |code| > 14 ==>
              && code' == FilledCode(ps, secrets, pythonicMode)
              && keyValues.Some? && ListsSecrets(ps, secrets, pythonicMode, keyValues.value)
  {
    KeyMarksDelimit();
    var keys;
    keys, markers := ExtractKeyStrings(KEY_MARKS, code);
    if |code| <= SHORTEST {
      return code, None, markers;
    }
    var values;
    code', values := ReplaceKeys(code, keys, secrets, pythonicMode);
    keyValues := Some(values);
    forall ps | WrittenCode(ps) == code && Regular(ps) && Harmless(ps, secrets, pythonicMode)
      ensures code' == FilledCode(ps, secrets, pythonicMode) && ListsSecrets(ps, secrets, pythonicMode, values)
    {
      RegularCodeFilled(ps, secrets, pythonicMode, markers);
    }
  }

  method ReplaceKeys(code: string, keys: seq<string>, secrets: map<string, string>, pythonicMode: bool)
    returns (code': string, values: seq<string>)
    ensures code' == Substituted(code, keys, Shown(KEY_MARKS, secrets, pythonicMode))
    ensures values == Unique(ShownValues(keys, Shown(KEY_MARKS, secrets, pythonicMode)))
  {
    hide ShownValue, Replace;
    ghost var value := Shown(KEY_MARKS, secrets, pythonicMode);
    code', values := code, [];
    for n := 0 to |keys|
      invariant code' == Substituted(code, keys[..n], value)
      invariant values == Unique(ShownValues(keys[..n], value))
    {
      assert keys[..n + 1] == keys[..n] + [keys[n]];
      SubstitutedMore(code, keys[..n], keys[n], value);
      ShownMore(keys[..n], keys[n], value);
      var shown := ShownValue(KEY_MARKS, secrets, pythonicMode, keys[n]);
      if shown.Some? {
        code' := Replace(code', keys[n], shown.value);
        if shown.value !in values {
          values := values + [shown.value];
        }
      }
    }
    assert keys[..|keys|] == keys;
  }
}
