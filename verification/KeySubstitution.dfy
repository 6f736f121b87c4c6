/** Secret markers in code: putting the secrets in their place, one replacement after the other. */
module KeySubstitution {
  import opened Basics
  import opened Text
  import opened KeyMarkers

  // --- Pieces of code --------------------------------------------------------------------------

  ghost predicate Plain(s: string) {
    forall n :: 0 <= n < |s| ==> s[n] != '#' && s[n] != '!'
  }

  ghost predicate IsKey(m: Marks, k: string) {
    Marker(m, k, 0, |k|)
  }

  /** A marker that does not hold the start of another one. */
  ghost predicate Single(m: Marks, k: string) {
    forall i :: 0 < i ==> !At(k, i, m.prefix)
  }

  /** Plain text, possibly after what is left of a marker without its end. */
  ghost predicate IsCut(m: Marks, x: string) {
    exists n :: 0 <= n < |x| && Plain(x[n..]) && Stub(m, x[..n])
  }

  ghost predicate Stub(m: Marks, u: string) {
    !Contains(u, m.terminator) && (u != [] ==> u[0] == '#')
  }

  ghost predicate Pieces(m: Marks, ps: seq<string>) {
    forall n :: 0 <= n < |ps| ==> IsKey(m, ps[n]) || IsCut(m, ps[n])
  }

  function Concat(ps: seq<string>): string {
    if ps == [] then [] else ps[0] + Concat(ps[1..])
  }

  predicate Ends(s: string, k: string) {
    |k| <= |s| && s[|s| - |k|..] == k
  }

  // --- Terminators and prefixes in joined pieces -------------------------------------------------

  lemma KeyShape(m: Marks, k: string)
    requires Delimits(m) && IsKey(m, k)
    ensures |m.prefix| + 2 <= |k| && m.prefix <= k && k[0] == '#' && k[|k| - 2] == '!' && k[|k| - 1] == '#'
  {
    assert k[0..] == k;
    assert k[|k| - 2..][0] == '!' && k[|k| - 2..][1] == '#';
    assert k[..|m.prefix|] == m.prefix;
    assert |m.prefix| < |k|;
  }

  lemma TerminatorAt(m: Marks, s: string, j: int)
    requires Delimits(m)
    ensures At(s, j, m.terminator) <==> 0 <= j && j + 2 <= |s| && s[j] == '!' && s[j + 1] == '#'
  {
    AtChars(s, j, m.terminator);
  }

  lemma {:induction false} StartOfPieces(m: Marks, ps: seq<string>)
    requires Delimits(m) && Pieces(m, ps) && Concat(ps) != []
    ensures Concat(ps)[0] != '!'
  {
    var p := ps[0];
    if IsKey(m, p) {
      KeyShape(m, p);
    } else {
      var n :| 0 <= n < |p| && Plain(p[n..]) && Stub(m, p[..n]);
      assert n == 0 ==> p[n..][0] == p[0];
      assert n > 0 ==> p[..n][0] == p[0];
    }
  }

  // A terminator that starts in a piece is the end of a marker.
  lemma TerminatorEnds(m: Marks, p: string, rest: string, j: int)
    requires Delimits(m) && (IsKey(m, p) || IsCut(m, p)) && (rest != [] ==> rest[0] != '!')
    requires At(p + rest, j, m.terminator) && j < |p|
    ensures IsKey(m, p) && j == |p| - 2
  {
    TerminatorAt(m, p + rest, j);
    TerminatorAt(m, p, j);
    if IsKey(m, p) {
      KeyShape(m, p);
    } else {
      var n :| 0 <= n < |p| && Plain(p[n..]) && Stub(m, p[..n]);
      PlainFrom(p, n);
      TerminatorAt(m, p[..n], j);
    }
  }

  lemma PlainFrom(p: string, n: nat)
    requires n <= |p| && Plain(p[n..])
    ensures forall i :: n <= i < |p| ==> p[i] != '#' && p[i] != '!'
  {
    forall i | n <= i < |p|
      ensures p[i] != '#' && p[i] != '!'
    {
      assert p[n..][i - n] == p[i];
    }
  }

  // Before every terminator there is a prefix.
  lemma {:induction false} PrefixBefore(m: Marks, ps: seq<string>, j: int) returns (p: nat)
    requires Delimits(m) && Pieces(m, ps) && At(Concat(ps), j, m.terminator)
    ensures p + |m.prefix| <= j && At(Concat(ps), p, m.prefix)
  {
    TerminatorAt(m, Concat(ps), j);
    var rest := Concat(ps[1..]);
    if j < |ps[0]| {
      if rest != [] {
        StartOfPieces(m, ps[1..]);
      }
      TerminatorEnds(m, ps[0], rest, j);
      KeyShape(m, ps[0]);
      p := 0;
      assert Concat(ps)[0..] == Concat(ps);
    } else {
      AtShifts(ps[0], rest, j, m.terminator);
      var q := PrefixBefore(m, ps[1..], j - |ps[0]|);
      p := q + |ps[0]|;
      AtShifts(ps[0], rest, p, m.prefix);
    }
  }

  lemma AtWithin(s: string, i: nat, k: string, d: nat, t: string)
    requires At(s, i, k) && d + |t| <= |k|
    ensures At(s, i + d, t) <==> At(k, d, t)
  {
    var after := s[i..][|k|..];
    assert s[i..] == k + after;
    assert s[i + d..] == s[i..][d..] == k[d..] + after;
    assert t <= k[d..] + after <==> t <= k[d..];
  }

  // A single marker occurs only as the end of a marker.
  lemma OccursAtEnds(m: Marks, ps: seq<string>, k: string, i: nat)
    requires Delimits(m) && Pieces(m, ps) && ps != [] && IsKey(m, k) && Single(m, k)
    requires At(Concat(ps), i, k) && i < |ps[0]|
    ensures IsKey(m, ps[0]) && i + |k| == |ps[0]|
  {
    KeyShape(m, k);
    var rest := Concat(ps[1..]);
    var j := i + (|k| - 2);
    AtWithin(Concat(ps), i, k, |k| - 2, m.terminator);
    if j < |ps[0]| {
      if rest != [] {
        StartOfPieces(m, ps[1..]);
      }
      TerminatorEnds(m, ps[0], rest, j);
    } else {
      PrefixInside(m, ps, k, i);
      assert false;
    }
  }

  lemma PrefixInside(m: Marks, ps: seq<string>, k: string, i: nat)
    requires Delimits(m) && Pieces(m, ps) && ps != [] && At(Concat(ps), i, k)
    requires At(Concat(ps), i + (|k| - 2), m.terminator)
    requires i < |ps[0]| <= i + (|k| - 2)
    ensures !Single(m, k)
  {
    var rest := Concat(ps[1..]);
    AtShifts(ps[0], rest, i + (|k| - 2), m.terminator);
    var p := PrefixBefore(m, ps[1..], i + (|k| - 2) - |ps[0]|);
    AtShifts(ps[0], rest, p + |ps[0]|, m.prefix);
    AtWithin(Concat(ps), i, k, p + |ps[0]| - i, m.prefix);
    assert At(k, p + |ps[0]| - i, m.prefix);
  }

  // --- One replacement ---------------------------------------------------------------------------

  ghost function ReplaceEnd(m: Marks, p: string, k: string, v: string): string {
    if IsKey(m, p) && Ends(p, k) then p[..|p| - |k|] + v else p
  }

  ghost function ReplaceEnds(m: Marks, ps: seq<string>, k: string, v: string): (r: seq<string>)
    ensures |r| == |ps| && forall n :: 0 <= n < |ps| ==> r[n] == ReplaceEnd(m, ps[n], k, v)
  {
    seq(|ps|, n requires 0 <= n < |ps| => ReplaceEnd(m, ps[n], k, v))
  }

  /** Replacing a single marker in joined pieces replaces it at the ends of the markers, and nowhere else. */
  lemma {:induction false} ReplaceJoined(m: Marks, ps: seq<string>, k: string, v: string)
    requires Delimits(m) && Pieces(m, ps) && IsKey(m, k) && Single(m, k)
    ensures Replace(Concat(ps), k, v) == Concat(ReplaceEnds(m, ps, k, v))
  {
    KeyShape(m, k);
    if ps != [] {
      ReplaceJoined(m, ps[1..], k, v);
      assert ReplaceEnds(m, ps, k, v)[1..] == ReplaceEnds(m, ps[1..], k, v);
      if IsKey(m, ps[0]) && Ends(ps[0], k) {
        EndReplaced(m, ps, k, v);
      } else {
        PieceCopied(m, ps, k, v);
      }
    }
  }

  lemma EndReplaced(m: Marks, ps: seq<string>, k: string, v: string)
    requires Delimits(m) && Pieces(m, ps) && IsKey(m, k) && Single(m, k) && ps != [] && IsKey(m, ps[0])
    requires Ends(ps[0], k)
    ensures Replace(Concat(ps), k, v) == ps[0][..|ps[0]| - |k|] + v + Replace(Concat(ps[1..]), k, v)
  {
    KeyShape(m, k);
    var p, rest := ps[0], Concat(ps[1..]);
    var before := p[..|p| - |k|];
    assert p == before + k;
    Regroup(before, k, rest);
    forall i | 0 <= i < |before|
      ensures !At(before + (k + rest), i, k)
    {
      if At(Concat(ps), i, k) {
        OccursAtEnds(m, ps, k, i);
      }
    }
    ReplaceAfter(before, k, rest, v);
  }

  lemma Regroup(a: string, b: string, c: string)
    ensures a + b + c == a + (b + c)
  {
  }

  lemma PieceCopied(m: Marks, ps: seq<string>, k: string, v: string)
    requires Delimits(m) && Pieces(m, ps) && IsKey(m, k) && Single(m, k) && ps != []
    requires !(IsKey(m, ps[0]) && Ends(ps[0], k))
    ensures Replace(Concat(ps), k, v) == ps[0] + Replace(Concat(ps[1..]), k, v)
  {
    KeyShape(m, k);
    var p, rest := ps[0], Concat(ps[1..]);
    forall i | 0 <= i < |p|
      ensures !At(p + rest, i, k)
    {
      if At(Concat(ps), i, k) {
        OccursAtEnds(m, ps, k, i);
        AtIsEnd(p, rest, k);
      }
    }
    ReplaceCopies(p, rest, k, v);
  }

  lemma AtIsEnd(p: string, rest: string, k: string)
    requires At(p + rest, |p| - |k|, k)
    ensures Ends(p, k)
  {
    var o := |p| - |k|;
    assert (p + rest)[o..][..|k|] == p[o..];
  }

  // What remains of a marker whose end was replaced is a cut piece.
  lemma ReplacedIsCut(m: Marks, p: string, k: string, v: string)
    requires Delimits(m) && IsKey(m, p) && IsKey(m, k) && Ends(p, k) && v != [] && Plain(v)
    ensures IsCut(m, p[..|p| - |k|] + v) && !IsKey(m, p[..|p| - |k|] + v)
  {
    var o := |p| - |k|;
    var x := p[..o] + v;
    KeyShape(m, p);
    KeyShape(m, k);
    assert x[o..] == v && x[..o] == p[..o];
    forall j
      ensures !At(p[..o], j, m.terminator)
    {
      TerminatorAt(m, p[..o], j);
      TerminatorAt(m, p, j);
    }
    assert x[|x| - 1] == v[|v| - 1];
    if IsKey(m, x) {
      KeyShape(m, x);
    }
  }

  // --- All replacements ----------------------------------------------------------------------------

  /** Secrets by marker.  No secret is empty or holds `#` or `!`, and no marker with a secret holds the start of
      another marker. */
  ghost predicate Sound(m: Marks, value: string -> Option<string>) {
    forall k :: IsKey(m, k) && value(k).Some? ==> value(k).value != [] && Plain(value(k).value) && Single(m, k)
  }

  /** The replacements in order. */
  function Substituted(code: string, keys: seq<string>, value: string -> Option<string>): string
    decreases |keys|
  {
    if keys == [] then code
    else
      Substituted(if value(keys[0]).Some? then Replace(code, keys[0], value(keys[0]).value) else code,
                  keys[1..], value)
  }

  ghost function SubstitutedPiece(m: Marks, p: string, keys: seq<string>, value: string -> Option<string>): string
    decreases |keys|
  {
    if keys == [] then p
    else
      SubstitutedPiece(m, if value(keys[0]).Some? then ReplaceEnd(m, p, keys[0], value(keys[0]).value) else p,
                       keys[1..], value)
  }

  ghost function SubstitutedPieces(m: Marks, ps: seq<string>, keys: seq<string>, value: string -> Option<string>)
    : (r: seq<string>)
    ensures |r| == |ps| && forall n :: 0 <= n < |ps| ==> r[n] == SubstitutedPiece(m, ps[n], keys, value)
  {
    seq(|ps|, n requires 0 <= n < |ps| => SubstitutedPiece(m, ps[n], keys, value))
  }

  lemma {:induction false} SubstitutedJoined(m: Marks, ps: seq<string>, keys: seq<string>,
                                             value: string -> Option<string>)
    requires Delimits(m) && Pieces(m, ps) && Sound(m, value) && forall k :: k in keys ==> IsKey(m, k)
    ensures Substituted(Concat(ps), keys, value) == Concat(SubstitutedPieces(m, ps, keys, value))
    ensures Pieces(m, SubstitutedPieces(m, ps, keys, value))
    decreases |keys|
  {
    hide Delimits, Replace, Concat;
    if keys == [] {
      assert SubstitutedPieces(m, ps, keys, value) == ps;
    } else {
      var k := keys[0];
      var next := ps;
      if value(k).Some? {
        next := ReplaceEnds(m, ps, k, value(k).value);
        ReplaceJoined(m, ps, k, value(k).value);
        forall n | 0 <= n < |ps|
          ensures IsKey(m, next[n]) || IsCut(m, next[n])
        {
          if IsKey(m, ps[n]) && Ends(ps[n], k) {
            ReplacedIsCut(m, ps[n], k, value(k).value);
          }
        }
      }
      SubstitutedJoined(m, next, keys[1..], value);
      assert SubstitutedPieces(m, ps, keys, value) == SubstitutedPieces(m, next, keys[1..], value);
    }
  }
}
