/** Secret markers in code: finding them. */
module KeyMarkers {
  import opened Text

  datatype Marks = Marks(prefix: string, terminator: string)

  const KEY_MARKS := Marks("#!cxtower", "!#")

  /** What matters of the two delimiters of a marker. */
  ghost predicate Delimits(m: Marks) {
    && |m.prefix| >= 3 && m.prefix[0] == '#' && m.prefix[1] == '!'
    && (forall n :: 0 < n < |m.prefix| ==> m.prefix[n] != '#')
    && (forall n :: 1 < n < |m.prefix| ==> m.prefix[n] != '!')
    && |m.terminator| == 2 && m.terminator[0] == '!' && m.terminator[1] == '#'
  }

  lemma KeyMarksDelimit()
    ensures Delimits(KEY_MARKS)
  {
    assert KEY_MARKS.prefix == ['#', '!', 'c', 'x', 't', 'o', 'w', 'e', 'r'];
  }

  // The elements of `xs` in order of their first occurrence.
  function Unique(xs: seq<string>): (u: seq<string>)
    ensures forall x :: x in u <==> x in xs
    ensures forall i, j :: 0 <= i < j < |u| ==> u[i] != u[j]
  {
    if xs == [] then []
    else
      var x := xs[|xs| - 1];
      var u := Unique(xs[..|xs| - 1]);
      assert xs == xs[..|xs| - 1] + [x];
      if x in u then u else u + [x]
  }

  lemma UniqueMore(xs: seq<string>, x: string)
    ensures Unique(xs + [x]) == if x in Unique(xs) then Unique(xs) else Unique(xs) + [x]
  {
    assert (xs + [x])[..|xs|] == xs;
  }

  // --- Markers ---------------------------------------------------------------------------------

  /** From a prefix to the end of the first terminator after it. */
  ghost predicate Marker(m: Marks, code: string, a: int, b: int) {
    && At(code, a, m.prefix)
    && a <= b - |m.terminator| && At(code, b - |m.terminator|, m.terminator)
    && forall i :: a <= i < b - |m.terminator| ==> !At(code, i, m.terminator)
  }

  /** Markers up to position `to`, one after the other, such that a prefix that starts in none of them has no
      terminator after it. */
  ghost predicate LeftmostTo(m: Marks, code: string, markers: seq<(int, int)>, to: int) {
    && (forall n :: 0 <= n < |markers| ==> Marker(m, code, markers[n].0, markers[n].1) && markers[n].1 <= to)
    && (forall n, k :: 0 <= n < k < |markers| ==> markers[n].1 <= markers[k].0)
    && (forall i, j :: i < to && i <= j && At(code, i, m.prefix) && At(code, j, m.terminator) ==> Inside(markers, i))
  }

  ghost predicate Leftmost(m: Marks, code: string, markers: seq<(int, int)>) {
    LeftmostTo(m, code, markers, |code|)
  }

  ghost predicate Inside(markers: seq<(int, int)>, i: int) {
    exists n :: 0 <= n < |markers| && markers[n].0 <= i < markers[n].1
  }

  function Texts(code: string, markers: seq<(int, int)>): (t: seq<string>)
    requires forall n :: 0 <= n < |markers| ==> 0 <= markers[n].0 <= markers[n].1 <= |code|
    ensures |t| == |markers| && forall n :: 0 <= n < |t| ==> t[n] == code[markers[n].0..markers[n].1]
  {
    seq(|markers|, n requires 0 <= n < |markers| => code[markers[n].0..markers[n].1])
  }

  /** The scan lists the leftmost markers, of which there is only one choice, each text once. */
  method ExtractKeyStrings(m: Marks, code: string) returns (keys: seq<string>, ghost markers: seq<(int, int)>)
    requires Delimits(m)
    ensures Leftmost(m, code, markers) && keys == Unique(Texts(code, markers))
    ensures forall ms :: Leftmost(m, code, ms) ==> keys == Unique(Texts(code, ms))
  {
    keys, markers := ScanKeyStrings(m, code);
    forall ms | Leftmost(m, code, ms)
      ensures ms == markers
    {
      LeftmostUnique(m, code, ms, markers);
    }
  }

  // The loop itself.
  method ScanKeyStrings(m: Marks, code: string) returns (keys: seq<string>, ghost markers: seq<(int, int)>)
    requires Delimits(m)
    ensures Leftmost(m, code, markers) && keys == Unique(Texts(code, markers))
  {
    keys, markers := [], [];
    var indexFrom := 0;
    while indexFrom >= 0
      invariant 0 <= indexFrom <= |code|
      invariant LeftmostTo(m, code, markers, indexFrom) && keys == Unique(Texts(code, markers))
      decreases |code| - indexFrom
    {
      ghost var start := indexFrom;
      indexFrom := Find(code, m.prefix, indexFrom);
      if indexFrom >= 0 {
        var indexTo := Find(code, m.terminator, indexFrom);
        if indexTo > 0 {
          var extractTo := indexTo + |m.terminator|;
          var key := code[indexFrom..extractTo];
          MarkerFound(m, code, markers, start, indexFrom, extractTo);
          TextsMore(code, markers, indexFrom, extractTo);
          UniqueMore(Texts(code, markers), key);
          if key !in keys {
            keys := keys + [key];
          }
          markers := markers + [(indexFrom, extractTo)];
          indexFrom := extractTo;
        } else {
          NothingFound(m, code, markers, start, indexFrom);
          indexFrom := indexFrom + |m.prefix|;
        }
      } else {
        NoMorePrefix(m, code, markers, start);
        break;
      }
    }
  }

  lemma TextsMore(code: string, markers: seq<(int, int)>, a: nat, b: nat)
    requires a <= b <= |code| && forall n :: 0 <= n < |markers| ==> 0 <= markers[n].0 <= markers[n].1 <= |code|
    ensures Texts(code, markers + [(a, b)]) == Texts(code, markers) + [code[a..b]]
  {
  }

  lemma NoMorePrefix(m: Marks, code: string, markers: seq<(int, int)>, start: nat)
    requires start <= |code| && LeftmostTo(m, code, markers, start) && Find(code, m.prefix, start) == -1
    ensures Leftmost(m, code, markers)
  {
    FoundFirst(code, m.prefix, start);
  }

  lemma MarkerFound(m: Marks, code: string, markers: seq<(int, int)>, start: nat, i: nat, next: nat)
    requires Delimits(m) && LeftmostTo(m, code, markers, start)
    requires start <= |code| && i == Find(code, m.prefix, start) && 2 <= next && next - 2 == Find(code, m.terminator, i)
    ensures LeftmostTo(m, code, markers + [(i, next)], next)
  {
    FoundFirst(code, m.prefix, start);
    FoundFirst(code, m.terminator, i);
    MarkerAdded(m, code, markers, start, i, next);
  }

  lemma MarkerAdded(m: Marks, code: string, markers: seq<(int, int)>, start: nat, i: nat, next: nat)
    requires Delimits(m) && LeftmostTo(m, code, markers, start) && Marker(m, code, i, next)
    requires start <= i && forall k :: start <= k < i ==> !At(code, k, m.prefix)
    ensures LeftmostTo(m, code, markers + [(i, next)], next)
  {
    var more := markers + [(i, next)];
    forall p | Inside(markers, p) || i <= p < next
      ensures Inside(more, p)
    {
      if n :| 0 <= n < |markers| && markers[n].0 <= p < markers[n].1 {
        assert more[n] == markers[n];
      } else {
        assert more[|markers|] == (i, next);
      }
    }
  }

  // Without a terminator, all that follows is passed over.
  lemma NothingFound(m: Marks, code: string, markers: seq<(int, int)>, start: nat, i: nat)
    requires Delimits(m) && start <= |code| && LeftmostTo(m, code, markers, start)
    requires i == Find(code, m.prefix, start) && Find(code, m.terminator, i) <= 0
    ensures LeftmostTo(m, code, markers, i + |m.prefix|)
  {
    FoundFirst(code, m.prefix, start);
    FoundFirst(code, m.terminator, i);
    assert code[i..][0] == '#';
  }

  /** There is one way only to choose the markers. */
  lemma LeftmostUnique(m: Marks, code: string, a: seq<(int, int)>, b: seq<(int, int)>)
    requires Delimits(m) && Leftmost(m, code, a) && Leftmost(m, code, b)
    ensures a == b
  {
    var n := if |a| <= |b| then |a| else |b|;
    SameStart(m, code, a, b, n);
    if n < |b| {
      NoFurther(m, code, a, b, n);
    } else if n < |a| {
      NoFurther(m, code, b, a, n);
    }
  }

  lemma {:induction false} SameStart(m: Marks, code: string, a: seq<(int, int)>, b: seq<(int, int)>, n: nat)
    requires Delimits(m) && Leftmost(m, code, a) && Leftmost(m, code, b) && n <= |a| && n <= |b|
    ensures forall k :: 0 <= k < n ==> a[k] == b[k]
  {
    hide Delimits, Leftmost;
    if n > 0 {
      SameStart(m, code, a, b, n - 1);
      SameNext(m, code, a, b, n - 1);
    }
  }

  lemma SameNext(m: Marks, code: string, a: seq<(int, int)>, b: seq<(int, int)>, n: nat)
    requires Delimits(m) && Leftmost(m, code, a) && Leftmost(m, code, b) && n < |a| && n < |b|
    requires forall k :: 0 <= k < n ==> a[k] == b[k]
    ensures a[n] == b[n]
  {
    StartsNoLater(m, code, a, b, n);
    StartsNoLater(m, code, b, a, n);
    SameEnd(m, code, a[n].0, a[n].1, b[n].1);
  }

  lemma SameEnd(m: Marks, code: string, i: int, b: int, c: int)
    requires Marker(m, code, i, b) && Marker(m, code, i, c)
    ensures b == c
  {
  }

  // The start of marker `n` of `a` lies in a marker of `b`, and that can only be marker `n`.
  lemma StartsNoLater(m: Marks, code: string, a: seq<(int, int)>, b: seq<(int, int)>, n: nat)
    requires Delimits(m) && Leftmost(m, code, a) && Leftmost(m, code, b) && n < |a| && n < |b|
    requires forall k :: 0 <= k < n ==> a[k] == b[k]
    ensures b[n].0 <= a[n].0
  {
    assert Marker(m, code, a[n].0, a[n].1);
    assert Inside(b, a[n].0);
    var q :| 0 <= q < |b| && b[q].0 <= a[n].0 < b[q].1;
    assert Marker(m, code, b[n].0, b[n].1);
    assert n < q ==> b[n].1 <= b[q].0;
  }

  lemma StartInside(m: Marks, code: string, a: seq<(int, int)>, b: seq<(int, int)>, n: nat)
    requires Leftmost(m, code, a) && Leftmost(m, code, b) && n < |b| && 0 < |m.prefix|
    ensures Inside(a, b[n].0)
  {
    assert Marker(m, code, b[n].0, b[n].1);
  }

  lemma NoFurther(m: Marks, code: string, a: seq<(int, int)>, b: seq<(int, int)>, n: nat)
    requires Delimits(m) && Leftmost(m, code, a) && Leftmost(m, code, b) && n == |a|
    requires n <= |b| && forall k :: 0 <= k < n ==> a[k] == b[k]
    ensures |b| == n
  {
    if n < |b| {
      StartInside(m, code, a, b, n);
      assert false;
    }
  }
}
