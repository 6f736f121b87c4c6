/** Parsing code with secret markers: what the replacements one by one amount to, and a second pass. */
module KeyParsing {
  import opened Basics
  import opened Text
  import opened KeyMarkers
  import opened KeySubstitution

  // --- The markers of joined pieces --------------------------------------------------------------

  /** Code cut into markers and the text between them, which has no `#` and no `!`. */
  ghost predicate Original(m: Marks, ps: seq<string>) {
    forall n :: 0 <= n < |ps| ==> IsKey(m, ps[n]) || (ps[n] != [] && Plain(ps[n]))
  }

  lemma OriginalPieces(m: Marks, ps: seq<string>)
    requires Delimits(m) && Original(m, ps)
    ensures Pieces(m, ps)
  {
    forall n | 0 <= n < |ps|
      ensures IsKey(m, ps[n]) || IsCut(m, ps[n])
    {
      if !IsKey(m, ps[n]) {
        assert ps[n][0..] == ps[n];
        forall j
          ensures !At(ps[n][..0], j, m.terminator)
        {
          TerminatorAt(m, ps[n][..0], j);
        }
      }
    }
  }

  ghost function KeysOf(m: Marks, ps: seq<string>): seq<string> {
    if ps == [] then []
    else
      var p := ps[|ps| - 1];
      KeysOf(m, ps[..|ps| - 1]) + if IsKey(m, p) then [p] else []
  }

  lemma {:induction false} KeysOfAll(m: Marks, ps: seq<string>)
    ensures forall k :: k in KeysOf(m, ps) <==> k in ps && IsKey(m, k)
  {
    if ps != [] {
      KeysOfAll(m, ps[..|ps| - 1]);
      assert ps == ps[..|ps| - 1] + [ps[|ps| - 1]];
    }
  }

  // Where a piece starts.
  function Offset(ps: seq<string>, n: nat): nat
    requires n <= |ps|
  {
    |Concat(ps[..n])|
  }

  lemma {:induction false} ConcatTwo(a: seq<string>, b: seq<string>)
    ensures Concat(a + b) == Concat(a) + Concat(b)
  {
    if a == [] {
      assert a + b == b;
    } else {
      assert (a + b)[1..] == a[1..] + b;
      ConcatTwo(a[1..], b);
    }
  }

  lemma ConcatTo(ps: seq<string>, n: nat)
    requires n < |ps|
    ensures Concat(ps[..n + 1]) == Concat(ps[..n]) + ps[n]
  {
    assert ps[..n + 1] == ps[..n] + [ps[n]] && [ps[n]][1..] == [];
    ConcatTwo(ps[..n], [ps[n]]);
  }

  lemma ConcatFrom(ps: seq<string>, n: nat)
    requires n < |ps|
    ensures Concat(ps) == Concat(ps[..n]) + (ps[n] + Concat(ps[n + 1..]))
  {
    assert ps == ps[..n] + ps[n..] && ps[n..][1..] == ps[n + 1..];
    ConcatTwo(ps[..n], ps[n..]);
  }

  lemma OffsetShift(ps: seq<string>, n: nat)
    requires 0 < n <= |ps|
    ensures Offset(ps, n) == |ps[0]| + Offset(ps[1..], n - 1)
  {
    assert ps[..n][1..] == ps[1..][..n - 1];
  }

  lemma PieceAt(ps: seq<string>, n: nat)
    requires n < |ps|
    ensures Offset(ps, n + 1) == Offset(ps, n) + |ps[n]| <= |Concat(ps)|
    ensures Concat(ps)[Offset(ps, n)..Offset(ps, n + 1)] == ps[n]
    ensures Concat(ps)[Offset(ps, n)..] == ps[n] + Concat(ps[n + 1..])
  {
    ConcatTo(ps, n);
    ConcatFrom(ps, n);
    Middle(Concat(ps), Concat(ps[..n]), ps[n], Concat(ps[n + 1..]));
  }

  lemma Middle(s: string, a: string, b: string, c: string)
    requires s == a + (b + c)
    ensures s[|a|..|a| + |b|] == b && s[|a|..] == b + c
  {
  }

  ghost function Places(m: Marks, ps: seq<string>, n: nat): seq<(int, int)>
    requires n <= |ps|
  {
    if n == 0 then []
    else Places(m, ps, n - 1) + if IsKey(m, ps[n - 1]) then [(Offset(ps, n - 1), Offset(ps, n))] else []
  }

  lemma {:induction false} PlacesLeftmost(m: Marks, ps: seq<string>, n: nat)
    requires Delimits(m) && Original(m, ps) && n <= |ps|
    ensures LeftmostTo(m, Concat(ps), Places(m, ps, n), Offset(ps, n)) && Offset(ps, n) <= |Concat(ps)|
  {
    if n > 0 {
      PlacesLeftmost(m, ps, n - 1);
      if IsKey(m, ps[n - 1]) {
        PlacesKey(m, ps, n);
      } else {
        PlacesPlain(m, ps, n);
      }
    }
  }

  lemma PlacesKey(m: Marks, ps: seq<string>, n: nat)
    requires Delimits(m) && 0 < n <= |ps| && IsKey(m, ps[n - 1])
    requires LeftmostTo(m, Concat(ps), Places(m, ps, n - 1), Offset(ps, n - 1))
    ensures LeftmostTo(m, Concat(ps), Places(m, ps, n), Offset(ps, n)) && Offset(ps, n) <= |Concat(ps)|
  {
    PieceAt(ps, n - 1);
    var start, next := Offset(ps, n - 1), Offset(ps, n);
    KeyPlaced(m, Concat(ps), ps[n - 1], start);
    MarkerAdded(m, Concat(ps), Places(m, ps, n - 1), start, start, next);
  }

  lemma PlacesPlain(m: Marks, ps: seq<string>, n: nat)
    requires Delimits(m) && 0 < n <= |ps| && !IsKey(m, ps[n - 1]) && Plain(ps[n - 1])
    requires LeftmostTo(m, Concat(ps), Places(m, ps, n - 1), Offset(ps, n - 1))
    ensures LeftmostTo(m, Concat(ps), Places(m, ps, n), Offset(ps, n)) && Offset(ps, n) <= |Concat(ps)|
  {
    PieceAt(ps, n - 1);
    PlainPassed(m, Concat(ps), ps[n - 1], Places(m, ps, n - 1), Offset(ps, n - 1), Offset(ps, n));
    assert Places(m, ps, n) == Places(m, ps, n - 1);
  }

  lemma {:induction false} PlacesTexts(m: Marks, ps: seq<string>, n: nat)
    requires n <= |ps|
    ensures forall k :: 0 <= k < |Places(m, ps, n)| ==>
              0 <= Places(m, ps, n)[k].0 <= Places(m, ps, n)[k].1 <= |Concat(ps)|
    ensures Texts(Concat(ps), Places(m, ps, n)) == KeysOf(m, ps[..n])
  {
    hide IsKey, Concat;
    if n > 0 {
      PlacesTexts(m, ps, n - 1);
      PieceAt(ps, n - 1);
      assert ps[..n][..n - 1] == ps[..n - 1];
      if IsKey(m, ps[n - 1]) {
        TextsMore(Concat(ps), Places(m, ps, n - 1), Offset(ps, n - 1), Offset(ps, n));
      }
    }
  }

  lemma KeyPlaced(m: Marks, code: string, k: string, start: nat)
    requires Delimits(m) && IsKey(m, k) && start + |k| <= |code| && code[start..start + |k|] == k
    ensures Marker(m, code, start, start + |k|)
  {
    KeyShape(m, k);
    assert k <= code[start..] by {
      assert code[start..][..|k|] == k;
    }
    assert k[0..] == k;
    AtWithin(code, start, k, 0, m.prefix);
    AtWithin(code, start, k, |k| - 2, m.terminator);
    forall i | start <= i < start + |k| - 2
      ensures !At(code, i, m.terminator)
    {
      AtWithin(code, start, k, i - start, m.terminator);
    }
  }

  lemma PlainPassed(m: Marks, code: string, p: string, markers: seq<(int, int)>, start: nat, next: nat)
    requires Delimits(m) && LeftmostTo(m, code, markers, start)
    requires start <= next <= |code| && code[start..next] == p && Plain(p)
    ensures LeftmostTo(m, code, markers, next)
  {
    forall i | start <= i < next
      ensures !At(code, i, m.prefix)
    {
      assert code[i] == p[i - start];
      AtChars(code, i, m.prefix);
    }
  }

  /** The markers found in the code are the markers among the pieces, in order. */
  lemma MarkersOfPieces(m: Marks, ps: seq<string>, markers: seq<(int, int)>)
    requires Delimits(m) && Original(m, ps) && Leftmost(m, Concat(ps), markers)
    ensures Texts(Concat(ps), markers) == KeysOf(m, ps)
  {
    PlacesLeftmost(m, ps, |ps|);
    PlacesTexts(m, ps, |ps|);
    assert ps[..|ps|] == ps;
    LeftmostUnique(m, Concat(ps), markers, Places(m, ps, |ps|));
  }

  // --- What becomes of a piece ---------------------------------------------------------------------

  lemma {:induction false} OtherKept(m: Marks, p: string, keys: seq<string>, value: string -> Option<string>)
    requires !IsKey(m, p)
    ensures SubstitutedPiece(m, p, keys, value) == p
    decreases |keys|
  {
    if keys != [] {
      OtherKept(m, p, keys[1..], value);
    }
  }

  // A marker that ends with another one holds its prefix.
  lemma EndHasPrefix(m: Marks, p: string, k: string)
    requires Delimits(m) && IsKey(m, p) && IsKey(m, k) && Ends(p, k)
    ensures At(p, |p| - |k|, m.prefix) && p[|p| - |k|] == '#'
  {
    KeyShape(m, k);
    assert p[|p| - |k|..] == k;
  }

  lemma {:induction false} SecretPut(m: Marks, p: string, keys: seq<string>, value: string -> Option<string>)
    requires Delimits(m) && Sound(m, value) && (forall k :: k in keys ==> IsKey(m, k))
    requires IsKey(m, p) && value(p).Some? && p in keys
    ensures SubstitutedPiece(m, p, keys, value) == value(p).value
    decreases |keys|
  {
    var k := keys[0];
    if Ends(p, k) {
      EndHasPrefix(m, p, k);
      assert |k| == |p| && k == p;
      ReplacedIsCut(m, p, p, value(p).value);
      assert p[..0] + value(p).value == value(p).value;
      OtherKept(m, value(p).value, keys[1..], value);
    } else {
      assert p[0..] == p;
      SecretPut(m, p, keys[1..], value);
    }
  }

  /** A marker without a secret that ends with one that has. */
  ghost predicate Damaged(m: Marks, p: string, keys: seq<string>, value: string -> Option<string>) {
    IsKey(m, p) && value(p).None? && exists k :: k in keys && value(k).Some? && Ends(p, k)
  }

  lemma {:induction false} MarkerKept(m: Marks, p: string, keys: seq<string>, value: string -> Option<string>)
    requires IsKey(m, p) && value(p).None? && !Damaged(m, p, keys, value)
    ensures SubstitutedPiece(m, p, keys, value) == p
    decreases |keys|
  {
    if keys != [] {
      assert keys[0] in keys;
      MarkerKept(m, p, keys[1..], value);
    }
  }

  lemma {:induction false} MarkerCut(m: Marks, p: string, keys: seq<string>, value: string -> Option<string>)
    returns (o: nat, v: string)
    requires Delimits(m) && Sound(m, value) && (forall k :: k in keys ==> IsKey(m, k)) && Damaged(m, p, keys, value)
    ensures 0 < o < |p| && p[o] == '#' && v != [] && Plain(v)
    ensures SubstitutedPiece(m, p, keys, value) == p[..o] + v && !IsKey(m, p[..o] + v)
    decreases |keys|
  {
    var k := keys[0];
    if value(k).Some? && Ends(p, k) {
      EndHasPrefix(m, p, k);
      o, v := |p| - |k|, value(k).value;
      assert o == 0 ==> p == k;
      KeyShape(m, k);
      ReplacedIsCut(m, p, k, v);
      OtherKept(m, p[..o] + v, keys[1..], value);
    } else {
      o, v := MarkerCut(m, p, keys[1..], value);
    }
  }

  // --- All secrets at once -------------------------------------------------------------------------

  ghost function Put(m: Marks, p: string, value: string -> Option<string>): string {
    if IsKey(m, p) && value(p).Some? then value(p).value else p
  }

  /** The code with all secrets put in the place of their markers at once. */
  ghost function Simultaneous(m: Marks, ps: seq<string>, value: string -> Option<string>): (r: seq<string>)
    ensures |r| == |ps| && forall n :: 0 <= n < |ps| ==> r[n] == Put(m, ps[n], value)
  {
    seq(|ps|, n requires 0 <= n < |ps| => Put(m, ps[n], value))
  }

  lemma PieceSame(m: Marks, p: string, keys: seq<string>, value: string -> Option<string>)
    requires Delimits(m) && Sound(m, value) && (forall k :: k in keys ==> IsKey(m, k)) && (IsKey(m, p) ==> p in keys)
    requires !Damaged(m, p, keys, value)
    ensures SubstitutedPiece(m, p, keys, value) == Put(m, p, value)
  {
    if !IsKey(m, p) {
      OtherKept(m, p, keys, value);
    } else if value(p).Some? {
      SecretPut(m, p, keys, value);
    } else {
      MarkerKept(m, p, keys, value);
    }
  }

  lemma {:induction false} JoinedSame(m: Marks, ps: seq<string>, keys: seq<string>, value: string -> Option<string>)
    requires Delimits(m) && Sound(m, value) && forall k :: k in keys ==> IsKey(m, k)
    requires forall n :: 0 <= n < |ps| && IsKey(m, ps[n]) ==> ps[n] in keys
    ensures Concat(SubstitutedPieces(m, ps, keys, value)) == Concat(Simultaneous(m, ps, value))
       <==> forall n :: 0 <= n < |ps| ==> !Damaged(m, ps[n], keys, value)
  {
    hide Delimits, Sound, IsKey, Damaged, SubstitutedPiece;
    if ps != [] {
      var p, rest := ps[0], ps[1..];
      assert forall n :: 0 <= n < |rest| ==> rest[n] == ps[n + 1];
      JoinedSame(m, rest, keys, value);
      assert SubstitutedPieces(m, ps, keys, value)[1..] == SubstitutedPieces(m, rest, keys, value);
      assert Simultaneous(m, ps, value)[1..] == Simultaneous(m, rest, value);
      var a, b := Concat(SubstitutedPieces(m, rest, keys, value)), Concat(Simultaneous(m, rest, value));
      if Damaged(m, p, keys, value) {
        CutDiffers(m, p, keys, value, a, b);
      } else {
        PieceSame(m, p, keys, value);
        Cancel(Put(m, p, value), a, b);
        if forall n :: 0 <= n < |rest| ==> !Damaged(m, rest[n], keys, value) {
          forall n | 0 <= n < |ps|
            ensures !Damaged(m, ps[n], keys, value)
          {
            assert n > 0 ==> ps[n] == rest[n - 1];
          }
        }
      }
    }
  }

  lemma CutDiffers(m: Marks, p: string, keys: seq<string>, value: string -> Option<string>, a: string, b: string)
    requires Delimits(m) && Sound(m, value) && (forall k :: k in keys ==> IsKey(m, k)) && Damaged(m, p, keys, value)
    ensures SubstitutedPiece(m, p, keys, value) + a != Put(m, p, value) + b
  {
    var o, v := MarkerCut(m, p, keys, value);
    assert (p[..o] + v + a)[o] == v[0] && (p + b)[o] == '#';
  }

  lemma Cancel(x: string, a: string, b: string)
    ensures x + a == x + b <==> a == b
  {
    assert (x + a)[|x|..] == a && (x + b)[|x|..] == b;
  }

  /** Main result: replacing the markers one after the other is putting all secrets in place at once, if and only if
      no marker without a secret ends with a marker that has one. */
  lemma SequentialIsSimultaneous(m: Marks, ps: seq<string>, value: string -> Option<string>, markers: seq<(int, int)>)
    requires Delimits(m) && Original(m, ps) && Sound(m, value) && Leftmost(m, Concat(ps), markers)
    ensures Substituted(Concat(ps), Unique(Texts(Concat(ps), markers)), value) == Concat(Simultaneous(m, ps, value))
       <==> forall p, k :: p in ps && k in ps && IsKey(m, p) && IsKey(m, k) && value(p).None? && value(k).Some? ==>
                             !Ends(p, k)
  {
    MarkersOfPieces(m, ps, markers);
    KeysOfAll(m, ps);
    var keys := Unique(KeysOf(m, ps));
    OriginalPieces(m, ps);
    SubstitutedJoined(m, ps, keys, value);
    JoinedSame(m, ps, keys, value);
    assert (forall n :: 0 <= n < |ps| ==> !Damaged(m, ps[n], keys, value))
      <==> forall p :: p in ps ==> !Damaged(m, p, keys, value);
  }

  // --- A second pass ---------------------------------------------------------------------------------

  lemma {:induction false} OffsetsGrow(ps: seq<string>, a: nat, b: nat)
    requires a <= b <= |ps|
    ensures Offset(ps, a) <= Offset(ps, b)
  {
    if a < b {
      OffsetsGrow(ps, a, b - 1);
      PieceAt(ps, b - 1);
    }
  }

  // A terminator is the end of a marker among the pieces.
  lemma {:induction false} TerminatorOfPiece(m: Marks, ps: seq<string>, j: nat) returns (n: nat)
    requires Delimits(m) && Pieces(m, ps) && At(Concat(ps), j, m.terminator)
    ensures n < |ps| && IsKey(m, ps[n]) && Offset(ps, n + 1) == j + 2
  {
    TerminatorAt(m, Concat(ps), j);
    var rest := Concat(ps[1..]);
    if j < |ps[0]| {
      if rest != [] {
        StartOfPieces(m, ps[1..]);
      }
      TerminatorEnds(m, ps[0], rest, j);
      n := 0;
      OffsetShift(ps, 1);
    } else {
      AtShifts(ps[0], rest, j, m.terminator);
      var k := TerminatorOfPiece(m, ps[1..], j - |ps[0]|);
      n := k + 1;
      OffsetShift(ps, k + 2);
    }
  }

  lemma PrefixBeforeEnd(m: Marks, code: string, a: nat, b: nat)
    requires Delimits(m) && Marker(m, code, a, b) && b <= |code|
    ensures a + |m.prefix| <= b - 2
  {
    TerminatorAt(m, code, b - 2);
    assert code[a..][..|m.prefix|] == m.prefix;
    assert code[a..][b - 2 - a] == '!' && code[a..][b - 1 - a] == '#';
  }

  lemma MarkerIsKey(m: Marks, code: string, a: nat, b: nat)
    requires Delimits(m) && Marker(m, code, a, b) && b <= |code|
    ensures IsKey(m, code[a..b])
  {
    var x := code[a..b];
    TerminatorAt(m, code, b - 2);
    assert x <= code[a..] by {
      assert code[a..][..|x|] == x;
    }
    AtChars(code, a, m.prefix);
    PrefixBeforeEnd(m, code, a, b);
    assert At(code, a, x);
    AtWithin(code, a, x, 0, m.prefix);
    AtWithin(code, a, x, |x| - 2, m.terminator);
    forall i | 0 <= i < |x| - 2
      ensures !At(x, i, m.terminator)
    {
      AtWithin(code, a, x, i, m.terminator);
    }
  }

  /** In pieces whose markers have no secrets, no marker found has one, though it may span several pieces. */
  lemma NoSecretLeft(m: Marks, ps: seq<string>, value: string -> Option<string>, markers: seq<(int, int)>, n: nat)
    requires Delimits(m) && Pieces(m, ps) && Sound(m, value) && Leftmost(m, Concat(ps), markers) && n < |markers|
    requires forall n :: 0 <= n < |ps| && IsKey(m, ps[n]) ==> value(ps[n]).None?
    ensures value(Concat(ps)[markers[n].0..markers[n].1]).None?
  {
    var t := EndPiece(m, ps, markers, n);
    if markers[n].0 < Offset(ps, t) {
      SpanningHasNoSecret(m, Concat(ps), markers[n].0, markers[n].1, Offset(ps, t), value);
    }
  }

  // A marker found ends with a marker among the pieces.
  lemma EndPiece(m: Marks, ps: seq<string>, markers: seq<(int, int)>, n: nat) returns (t: nat)
    requires Delimits(m) && Pieces(m, ps) && Leftmost(m, Concat(ps), markers) && n < |markers|
    ensures Marker(m, Concat(ps), markers[n].0, markers[n].1)
    ensures t < |ps| && IsKey(m, ps[t]) && markers[n].0 <= Offset(ps, t) && At(Concat(ps), Offset(ps, t), m.prefix)
    ensures Offset(ps, t) + |m.prefix| <= markers[n].1 <= |Concat(ps)|
    ensures Concat(ps)[Offset(ps, t)..markers[n].1] == ps[t]
  {
    assert Marker(m, Concat(ps), markers[n].0, markers[n].1);
    t := TerminatorOfPiece(m, ps, markers[n].1 - 2);
    KeyOfPiece(m, ps, t);
    MarkerStartsEarlier(m, ps, markers, n, t);
  }

  lemma KeyOfPiece(m: Marks, ps: seq<string>, t: nat)
    requires Delimits(m) && t < |ps| && IsKey(m, ps[t])
    ensures Marker(m, Concat(ps), Offset(ps, t), Offset(ps, t + 1))
    ensures Offset(ps, t) + |m.prefix| <= Offset(ps, t + 1) <= |Concat(ps)|
    ensures Concat(ps)[Offset(ps, t)..Offset(ps, t + 1)] == ps[t]
  {
    PieceAt(ps, t);
    KeyShape(m, ps[t]);
    KeyPlaced(m, Concat(ps), ps[t], Offset(ps, t));
  }

  lemma SpanningHasNoSecret(m: Marks, code: string, a: nat, b: nat, p: nat, value: string -> Option<string>)
    requires Delimits(m) && Sound(m, value) && Marker(m, code, a, b)
    requires a < p && p + |m.prefix| <= b <= |code| && At(code, p, m.prefix)
    ensures value(code[a..b]).None?
  {
    MarkerIsKey(m, code, a, b);
    PrefixWithin(m, code, a, b, p);
  }

  lemma PrefixWithin(m: Marks, code: string, a: nat, b: nat, p: nat)
    requires a < p && p + |m.prefix| <= b <= |code| && At(code, p, m.prefix)
    ensures !Single(m, code[a..b])
  {
    assert code[a..][..b - a] == code[a..b];
    AtWithin(code, a, code[a..b], p - a, m.prefix);
    assert At(code[a..b], p - a, m.prefix);
  }

  lemma MarkerStartsEarlier(m: Marks, ps: seq<string>, markers: seq<(int, int)>, n: nat, t: nat)
    requires Delimits(m) && Pieces(m, ps) && Leftmost(m, Concat(ps), markers) && n < |markers| && t < |ps|
    requires Marker(m, Concat(ps), Offset(ps, t), Offset(ps, t + 1)) && Offset(ps, t + 1) == markers[n].1
    requires Offset(ps, t) + 2 < markers[n].1
    ensures markers[n].0 <= Offset(ps, t)
  {
    var q := MarkerAround(m, Concat(ps), markers, n, Offset(ps, t));
    if q < n {
      var u := TerminatorOfPiece(m, ps, markers[q].1 - 2);
      NoOffsetBetween(ps, t, u);
    }
  }

  lemma NoOffsetBetween(ps: seq<string>, t: nat, u: nat)
    requires t < |ps| && u < |ps|
    ensures Offset(ps, u + 1) <= Offset(ps, t) || Offset(ps, t + 1) <= Offset(ps, u + 1)
  {
    if u < t {
      OffsetsGrow(ps, u + 1, t);
    } else {
      OffsetsGrow(ps, t + 1, u + 1);
    }
  }

  // A prefix in front of the end of marker `n` lies in that marker or an earlier one.
  lemma MarkerAround(m: Marks, code: string, markers: seq<(int, int)>, n: nat, p: nat) returns (q: nat)
    requires Delimits(m) && Leftmost(m, code, markers) && n < |markers| && p < markers[n].1 - 2 && At(code, p, m.prefix)
    ensures q <= n && markers[q].0 <= p < markers[q].1 && Marker(m, code, markers[q].0, markers[q].1)
    ensures q < n ==> markers[q].1 <= markers[n].0
  {
    assert Marker(m, code, markers[n].0, markers[n].1);
    assert Inside(markers, p);
    q :| 0 <= q < |markers| && markers[q].0 <= p < markers[q].1;
  }

  lemma {:induction false} NothingToPut(code: string, keys: seq<string>, value: string -> Option<string>)
    requires forall k :: k in keys ==> value(k).None?
    ensures Substituted(code, keys, value) == code
    decreases |keys|
  {
    if keys != [] {
      NothingToPut(code, keys[1..], value);
    }
  }

  /** Main result: parsing the result again changes nothing. */
  lemma SecondPassIdle(m: Marks, ps: seq<string>, value: string -> Option<string>, markers: seq<(int, int)>,
                       again: seq<(int, int)>)
    requires Delimits(m) && Original(m, ps) && Sound(m, value) && Leftmost(m, Concat(ps), markers)
    requires Leftmost(m, Substituted(Concat(ps), Unique(Texts(Concat(ps), markers)), value), again)
    ensures var code := Substituted(Concat(ps), Unique(Texts(Concat(ps), markers)), value);
            Substituted(code, Unique(Texts(code, again)), value) == code
  {
    MarkersOfPieces(m, ps, markers);
    KeysOfAll(m, ps);
    OriginalPieces(m, ps);
    var keys := Unique(KeysOf(m, ps));
    SubstitutedJoined(m, ps, keys, value);
    var after := SubstitutedPieces(m, ps, keys, value);
    forall n | 0 <= n < |after| && IsKey(m, after[n])
      ensures value(after[n]).None?
    {
      PieceUnresolved(m, ps[n], keys, value);
    }
    forall n | 0 <= n < |again|
      ensures value(Texts(Concat(after), again)[n]).None?
    {
      NoSecretLeft(m, after, value, again, n);
    }
    NothingToPut(Concat(after), Unique(Texts(Concat(after), again)), value);
  }

  lemma PieceUnresolved(m: Marks, p: string, keys: seq<string>, value: string -> Option<string>)
    requires Delimits(m) && Sound(m, value) && (forall k :: k in keys ==> IsKey(m, k))
    requires (IsKey(m, p) ==> p in keys) && IsKey(m, SubstitutedPiece(m, p, keys, value))
    ensures value(SubstitutedPiece(m, p, keys, value)).None?
  {
    if !IsKey(m, p) {
      OtherKept(m, p, keys, value);
    } else if value(p).Some? {
      SecretPut(m, p, keys, value);
      KeyShape(m, value(p).value);
    } else if Damaged(m, p, keys, value) {
      var o, v := MarkerCut(m, p, keys, value);
    } else {
      MarkerKept(m, p, keys, value);
    }
  }
}
