/** From a marker to its secret: the parts of a marker, the look-up by reference, and the whole parse of a code. */
module KeyLookup {
  import opened Basics
  import opened Text
  import opened KeyMarkers
  import opened KeySubstitution
  import opened KeyParsing
  import Masking

  // --- The parts of a marker -----------------------------------------------------------------------

  function Split(s: string): (parts: seq<string>)
    ensures |parts| >= 1
  {
    if s == [] then [[]]
    else if s[0] == '.' then [[]] + Split(s[1..])
    else var parts := Split(s[1..]); [[s[0]] + parts[0]] + parts[1..]
  }

  function Join(parts: seq<string>): string
    requires |parts| >= 1
  {
    if |parts| == 1 then parts[0] else parts[0] + ("." + Join(parts[1..]))
  }

  lemma {:induction false} JoinSplit(s: string)
    ensures Join(Split(s)) == s
  {
    if s != [] {
      JoinSplit(s[1..]);
      var parts := Split(s[1..]);
      if s[0] == '.' {
        assert ([[]] + parts)[1..] == parts;
      } else {
        assert ([[s[0]] + parts[0]] + parts[1..])[1..] == parts[1..];
      }
    }
  }

  lemma {:induction false} SplitFirst(a: string, b: string)
    requires '.' !in a
    ensures Split(a + "." + b) == [a] + Split(b)
    ensures Split(a) == [a]
  {
    if a == [] {
      assert ("." + b)[1..] == b && [] + "." + b == "." + b;
    } else {
      SplitFirst(a[1..], b);
      assert (a + "." + b)[1..] == a[1..] + "." + b && a[0] in a;
      assert ([a[1..]] + Split(b))[1..] == Split(b) && [a[0]] + a[1..] == a;
    }
  }

  /** The type and the reference of a marker, blanks apart. */
  function ExtractKeyParts(m: Marks, key: string): Option<(string, string)> {
    var parts := Split(Replace(Replace(key, " ", ""), m.terminator, ""));
    if |parts| == 3 && parts[0] == m.prefix then Some((parts[1], parts[2])) else None
  }

  predicate Word(s: string) {
    s != [] && forall c :: c in s ==> 'a' <= c <= 'z' || 'A' <= c <= 'Z' || '0' <= c <= '9' || c == '_'
  }

  lemma PartsJoined(m: Marks, key: string)
    requires ExtractKeyParts(m, key).Some?
    ensures var (kind, ref) := ExtractKeyParts(m, key).value;
            Replace(Replace(key, " ", ""), m.terminator, "") == m.prefix + ("." + (kind + ("." + ref)))
  {
    var r := Replace(Replace(key, " ", ""), m.terminator, "");
    JoinSplit(r);
    var parts := Split(r);
    assert parts[1..][1..] == parts[2..] && parts[2..][0] == parts[2];
    assert Join(parts[2..]) == parts[2];
    assert Join(parts[1..]) == parts[1] + ("." + parts[2]);
  }

  // A prefix and a text without exclamation marks hold no terminator, not even with the next one.
  lemma WrittenOnce(m: Marks, tail: string)
    requires Delimits(m) && tail != [] && '!' !in tail
    ensures forall i :: 0 <= i < |m.prefix + tail| ==> !At(m.prefix + tail + (m.terminator + ""), i, m.terminator)
  {
    var x := m.prefix + tail;
    forall i | 0 <= i < |x|
      ensures !At(x + (m.terminator + ""), i, m.terminator)
    {
      TerminatorAt(m, x + (m.terminator + ""), i);
      if i >= |m.prefix| {
        assert x[i] == tail[i - |m.prefix|];
      }
    }
  }

  /** Written the regular way, a marker has the parts it was written from. */
  lemma KeyPartsFound(m: Marks, kind: string, ref: string)
    requires Delimits(m) && ' ' !in m.prefix && '.' !in m.prefix && Word(kind) && Word(ref)
    ensures ExtractKeyParts(m, m.prefix + ("." + kind + "." + ref) + m.terminator) == Some((kind, ref))
  {
    var tail := "." + kind + "." + ref;
    NoBlanks(m.prefix + tail + m.terminator);
    WithoutTerminator(m, tail);
    SplitThree(m.prefix, kind, ref);
  }

  lemma SplitThree(a: string, b: string, c: string)
    requires '.' !in a && '.' !in b && '.' !in c
    ensures Split(a + ("." + b + "." + c)) == [a, b, c]
  {
    assert a + ("." + b + "." + c) == a + "." + (b + "." + c);
    SplitFirst(a, b + "." + c);
    SplitFirst(b, c);
    SplitFirst(c, "");
  }

  lemma NoBlanks(s: string)
    requires ' ' !in s
    ensures Replace(s, " ", "") == s
  {
    BlanksRemoved(s, "");
  }

  lemma WithoutTerminator(m: Marks, tail: string)
    requires Delimits(m) && tail != [] && '!' !in tail
    ensures Replace(m.prefix + tail + m.terminator, m.terminator, "") == m.prefix + tail
  {
    var x := m.prefix + tail;
    WrittenOnce(m, tail);
    assert x + (m.terminator + "") == x + m.terminator;
    ReplaceAfter(x, m.terminator, "", "");
    assert x + "" + Replace("", m.terminator, "") == x;
  }

  // --- Only single markers have secrets --------------------------------------------------------------

  function Bangs(s: string): nat {
    if s == [] then 0 else (if s[0] == '!' then 1 else 0) + Bangs(s[1..])
  }

  // The exclamation marks that start no terminator.
  function FreeBangs(s: string): nat {
    if s == [] then 0 else (if s[0] == '!' && (|s| == 1 || s[1] != '#') then 1 else 0) + FreeBangs(s[1..])
  }

  lemma {:induction false} BangsJoined(a: string, b: string)
    ensures Bangs(a + b) == Bangs(a) + Bangs(b)
  {
    if a == [] {
      assert a + b == b;
    } else {
      assert (a + b)[1..] == a[1..] + b;
      BangsJoined(a[1..], b);
    }
  }

  lemma {:induction false} FreeBangsStay(m: Marks, s: string)
    requires Delimits(m)
    ensures FreeBangs(s) <= Bangs(Replace(s, m.terminator, ""))
    decreases |s|
  {
    if s != [] {
      if m.terminator <= s {
        assert s[0] == '!' && s[1] == '#' && s[1..][1..] == s[2..];
        assert FreeBangs(s[1..]) == FreeBangs(s[2..]);
        FreeBangsStay(m, s[2..]);
        assert "" + Replace(s[2..], m.terminator, "") == Replace(s[2..], m.terminator, "");
      } else {
        FreeBangsStay(m, s[1..]);
        TerminatorAt(m, s, 0);
        assert s[0..] == s;
        BangsJoined([s[0]], Replace(s[1..], m.terminator, ""));
      }
    }
  }

  // A prefix has a free exclamation mark.
  lemma {:induction false} FreeBangsBefore(a: string, b: string, i: nat)
    requires i + 1 < |a| ==> a[i] == '!' && a[i + 1] != '#'
    ensures FreeBangs(a + b) >= FreeBangs(b) + if i + 1 < |a| then 1 else 0
  {
    if a == [] {
      assert a + b == b;
    } else {
      assert (a + b)[1..] == a[1..] + b;
      FreeBangsBefore(a[1..], b, if i == 0 then |a| else i - 1);
    }
  }

  lemma {:induction false} BlanksRemoved(a: string, b: string)
    ensures Replace(a + b, " ", "") == Replace(a, " ", "") + Replace(b, " ", "")
    ensures ' ' !in a ==> Replace(a, " ", "") == a
  {
    if a == [] {
      assert a + b == b;
    } else {
      assert (a + b)[1..] == a[1..] + b;
      BlanksRemoved(a[1..], b);
    }
  }

  lemma {:induction false} NoBangs(s: string)
    requires '!' !in s
    ensures Bangs(s) == 0
  {
    if s != [] {
      NoBangs(s[1..]);
    }
  }

  /** The secret of a marker, given the secrets by reference. */
  function Resolve(m: Marks, secrets: map<string, string>, key: string): Option<string> {
    var parts := ExtractKeyParts(m, key);
    if parts.Some? && parts.value.0 == "secret" && parts.value.1 in secrets then Some(secrets[parts.value.1]) else None
  }

  /** A marker that resolves to a secret does not hold the start of another marker. */
  lemma ResolvedIsSingle(m: Marks, secrets: map<string, string>, key: string)
    requires Delimits(m) && ' ' !in m.prefix && IsKey(m, key)
    requires (forall ref :: ref in secrets ==> Word(ref)) && Resolve(m, secrets, key).Some?
    ensures Single(m, key)
  {
    forall i | 0 < i
      ensures !At(key, i, m.prefix)
    {
      if At(key, i, m.prefix) {
        TwoPrefixes(m, key, i);
        var (kind, ref) := ExtractKeyParts(m, key).value;
        PartsJoined(m, key);
        OneBang(m, kind, ref);
        FreeBangsStay(m, Replace(key, " ", ""));
        assert false;
      }
    }
  }

  lemma OneBang(m: Marks, kind: string, ref: string)
    requires Delimits(m) && kind == "secret" && Word(ref)
    ensures Bangs(m.prefix + ("." + (kind + ("." + ref)))) == 1
  {
    assert m.prefix == ['#', '!'] + m.prefix[2..];
    assert ['#', '!'][1..] == ['!'] && ['!'][1..] == [];
    BangsJoined(['#', '!'], m.prefix[2..]);
    NoBangs(m.prefix[2..]);
    BangsJoined(m.prefix, "." + (kind + ("." + ref)));
    NoBangs("." + (kind + ("." + ref)));
  }

  lemma TwoPrefixes(m: Marks, key: string, i: nat)
    requires Delimits(m) && ' ' !in m.prefix && IsKey(m, key) && 0 < i && At(key, i, m.prefix)
    ensures FreeBangs(Replace(key, " ", "")) >= 2
  {
    hide Replace, FreeBangs;
    KeyShape(m, key);
    AtChars(key, i, m.prefix);
    assert key[..|m.prefix|] == m.prefix && key[i] == '#';
    var u, w := key[|m.prefix|..i], key[i + |m.prefix|..];
    assert key == m.prefix + (u + (m.prefix + w)) by {
      assert key[i..i + |m.prefix|] == m.prefix;
    }
    BlanksRemoved(m.prefix, u + (m.prefix + w));
    BlanksRemoved(u, m.prefix + w);
    BlanksRemoved(m.prefix, w);
    var u', w' := Replace(u, " ", ""), Replace(w, " ", "");
    FreeBangsBefore(m.prefix, w', 1);
    FreeBangsBefore(u', m.prefix + w', |u'|);
    FreeBangsBefore(m.prefix, u' + (m.prefix + w'), 1);
  }

  // --- Parsing a code --------------------------------------------------------------------------------

  /** What a marker is replaced with, if anything: its secret, quoted in Python code. */
  function ShownValue(m: Marks, secrets: map<string, string>, pythonicMode: bool, key: string): Option<string> {
    var value := Resolve(m, secrets, key);
    if value.None? || value.value == "" then None
    else if pythonicMode then Some(Masking.Quoted(value.value))
    else value
  }

  function Shown(m: Marks, secrets: map<string, string>, pythonicMode: bool): string -> Option<string> {
    key => ShownValue(m, secrets, pythonicMode, key)
  }

  function ShownValues(keys: seq<string>, value: string -> Option<string>): seq<string> {
    if keys == [] then []
    else
      ShownValues(keys[..|keys| - 1], value)
      + if value(keys[|keys| - 1]).Some? then [value(keys[|keys| - 1]).value] else []
  }

  const SHORTEST := |KEY_MARKS.prefix| + 3 + |KEY_MARKS.terminator|

  lemma {:induction false} SubstitutedMore(code: string, keys: seq<string>, key: string,
                                           value: string -> Option<string>)
    ensures var before := Substituted(code, keys, value);
            Substituted(code, keys + [key], value)
            == if value(key).Some? then Replace(before, key, value(key).value) else before
    decreases |keys|
  {
    if keys == [] {
      assert ([] + [key])[1..] == [];
    } else {
      assert (keys + [key])[1..] == keys[1..] + [key];
      SubstitutedMore(if value(keys[0]).Some? then Replace(code, keys[0], value(keys[0]).value) else code,
                      keys[1..], key, value);
    }
  }

  lemma ShownMore(keys: seq<string>, key: string, value: string -> Option<string>)
    ensures var before := Unique(ShownValues(keys, value));
            Unique(ShownValues(keys + [key], value))
              == if value(key).Some? && value(key).value !in before then before + [value(key).value] else before
  {
    assert (keys + [key])[..|keys|] == keys;
    assert ShownValues(keys, value) + [] == ShownValues(keys, value);
    if value(key).Some? {
      UniqueMore(ShownValues(keys, value), value(key).value);
    }
  }

  /** Secrets that hold no `#` and no `!`, looked up by regular references, meet what the substitution needs. */
  lemma ShownIsSound(secrets: map<string, string>, pythonicMode: bool)
    requires forall ref :: ref in secrets ==> Word(ref) && Plain(secrets[ref])
    ensures Sound(KEY_MARKS, Shown(KEY_MARKS, secrets, pythonicMode))
  {
    KeyMarksDelimit();
    NoBlankInPrefix();
    var value := Shown(KEY_MARKS, secrets, pythonicMode);
    forall key | IsKey(KEY_MARKS, key) && value(key).Some?
      ensures value(key).value != [] && Plain(value(key).value) && Single(KEY_MARKS, key)
    {
      ResolvedIsSingle(KEY_MARKS, secrets, key);
      if pythonicMode {
        QuotedIsPlain(Resolve(KEY_MARKS, secrets, key).value);
      }
    }
  }

  lemma NoBlankInPrefix()
    ensures ' ' !in KEY_MARKS.prefix && '.' !in KEY_MARKS.prefix
  {
    assert KEY_MARKS.prefix == ['#', '!', 'c', 'x', 't', 'o', 'w', 'e', 'r'];
  }

  lemma QuotedIsPlain(s: string)
    requires Plain(s)
    ensures Masking.Quoted(s) != [] && Plain(Masking.Quoted(s))
  {
    Masking.EscapedQuotes(s);
    EscapedIsPlain(s);
  }

  lemma {:induction false} EscapedIsPlain(s: string)
    requires Plain(s)
    ensures Plain(Replace(s, "\n", Masking.LITERAL_NEWLINE))
  {
    if s != [] {
      EscapedIsPlain(s[1..]);
    }
  }

  /** Main result, for the parse as a whole: a second parse of the result changes nothing. */
  lemma ParsedTwice(ps: seq<string>, secrets: map<string, string>, pythonicMode: bool, markers: seq<(int, int)>,
                    again: seq<(int, int)>)
    requires Original(KEY_MARKS, ps) && Leftmost(KEY_MARKS, Concat(ps), markers)
    requires forall ref :: ref in secrets ==> Word(ref) && Plain(secrets[ref])
    requires var value := Shown(KEY_MARKS, secrets, pythonicMode);
             Leftmost(KEY_MARKS, Substituted(Concat(ps), Unique(Texts(Concat(ps), markers)), value), again)
    ensures var value := Shown(KEY_MARKS, secrets, pythonicMode);
            var code := Substituted(Concat(ps), Unique(Texts(Concat(ps), markers)), value);
            Substituted(code, Unique(Texts(code, again)), value) == code
  {
    KeyMarksDelimit();
    ShownIsSound(secrets, pythonicMode);
    SecondPassIdle(KEY_MARKS, ps, Shown(KEY_MARKS, secrets, pythonicMode), markers, again);
  }

  // --- A marker in a marker ----------------------------------------------------------------------------

  lemma WrittenIsKey(m: Marks, tail: string)
    requires Delimits(m) && tail != [] && '!' !in tail
    ensures IsKey(m, m.prefix + tail + m.terminator)
  {
    var x := m.prefix + tail;
    var key := x + m.terminator;
    WrittenOnce(m, tail);
    assert x + (m.terminator + "") == key;
    assert key[0..] == key && key[..|m.prefix|] == m.prefix;
    assert key[|key| - 2..] == m.terminator;
  }

  lemma NestedIsKey(m: Marks, key: string)
    requires Delimits(m) && IsKey(m, key)
    ensures IsKey(m, m.prefix + key) && !Single(m, m.prefix + key)
  {
    var nested := m.prefix + key;
    KeyShape(m, key);
    assert nested[0..] == nested && nested[..|m.prefix|] == m.prefix;
    AtShifts(m.prefix, key, |m.prefix|, m.prefix);
    assert key[0..] == key;
    AtShifts(m.prefix, key, |nested| - 2, m.terminator);
    forall i | 0 <= i < |nested| - 2
      ensures !At(nested, i, m.terminator)
    {
      NoEarlierTerminator(m, key, i);
    }
  }

  lemma NoEarlierTerminator(m: Marks, key: string, i: nat)
    requires Delimits(m) && IsKey(m, key) && i < |m.prefix| + |key| - 2
    ensures !At(m.prefix + key, i, m.terminator)
  {
    if i >= |m.prefix| {
      KeyShape(m, key);
      AtShifts(m.prefix, key, i, m.terminator);
    } else {
      TerminatorAt(m, m.prefix + key, i);
    }
  }

  /** A marker around another one, which occurs on its own too, is torn apart by the replacement of the other. */
  lemma NestedMarkerTorn()
    ensures var inner := KEY_MARKS.prefix + ".secret.A" + KEY_MARKS.terminator;
            var ps, value := [KEY_MARKS.prefix + inner, inner], Shown(KEY_MARKS, map["A" := "x"], false);
            Original(KEY_MARKS, ps) && forall markers :: Leftmost(KEY_MARKS, Concat(ps), markers) ==>
              Substituted(Concat(ps), Unique(Texts(Concat(ps), markers)), value)
              != Concat(Simultaneous(KEY_MARKS, ps, value))
  {
    hide Leftmost, Substituted, Simultaneous, Unique, Concat, Delimits, IsKey;
    var m, secrets := KEY_MARKS, map["A" := "x"];
    KeyMarksDelimit();
    NoBlankInPrefix();
    assert ".secret.A" == "." + "secret" + "." + "A";
    WrittenIsKey(m, ".secret.A");
    KeyPartsFound(m, "secret", "A");
    NestedTorn(m.prefix + ".secret.A" + m.terminator, secrets);
  }

  // The outer marker has no secret, and ends with the inner one.
  lemma OuterUnresolved(m: Marks, inner: string, value: string -> Option<string>)
    requires Delimits(m) && Sound(m, value) && IsKey(m, inner)
    ensures var outer := m.prefix + inner; IsKey(m, outer) && Ends(outer, inner) && value(outer).None?
  {
    var outer := m.prefix + inner;
    NestedIsKey(m, inner);
    assert outer[|outer| - |inner|..] == inner;
  }

  lemma NestedTorn(inner: string, secrets: map<string, string>)
    requires IsKey(KEY_MARKS, inner) && ShownValue(KEY_MARKS, secrets, false, inner).Some?
    requires forall ref :: ref in secrets ==> Word(ref) && Plain(secrets[ref])
    ensures var ps, value := [KEY_MARKS.prefix + inner, inner], Shown(KEY_MARKS, secrets, false);
            Original(KEY_MARKS, ps) && forall markers :: Leftmost(KEY_MARKS, Concat(ps), markers) ==>
              Substituted(Concat(ps), Unique(Texts(Concat(ps), markers)), value)
              != Concat(Simultaneous(KEY_MARKS, ps, value))
  {
    hide Substituted, Simultaneous, Unique, Concat, Delimits, IsKey, Sound, ShownValue;
    var m, value := KEY_MARKS, Shown(KEY_MARKS, secrets, false);
    KeyMarksDelimit();
    ShownIsSound(secrets, false);
    var outer := m.prefix + inner;
    OuterUnresolved(m, inner, value);
    var ps := [outer, inner];
    assert outer in ps && inner in ps;
    forall markers | Leftmost(m, Concat(ps), markers)
      ensures Substituted(Concat(ps), Unique(Texts(Concat(ps), markers)), value) != Concat(Simultaneous(m, ps, value))
    {
      SequentialIsSimultaneous(m, ps, value, markers);
    }
  }
}
