/** Searching and replacing in strings, as the string methods of the source do. */
module Text {
  predicate At(s: string, i: int, t: string) {
    0 <= i <= |s| && t <= s[i..]
  }

  ghost predicate Contains(s: string, t: string) {
    exists i :: At(s, i, t)
  }

  /** The first place of `t` in `s` from `from` on, or -1. */
  function Find(s: string, t: string, from: nat): (r: int)
    requires from <= |s|
    ensures r == -1 || (from <= r && r + |t| <= |s|)
    decreases |s| - from
  {
    if t <= s[from..] then from
    else if from == |s| then -1
    else Find(s, t, from + 1)
  }

  lemma {:induction false} FoundFirst(s: string, t: string, from: nat)
    requires from <= |s|
    ensures var r := Find(s, t, from);
            (r != -1 ==> At(s, r, t)) && forall i :: from <= i && At(s, i, t) ==> r != -1 && r <= i
    decreases |s| - from
  {
    if !(t <= s[from..]) && from < |s| {
      FoundFirst(s, t, from + 1);
    }
  }

  /** All places of `old_` replaced from the left, none overlapping another.  The empty string stands before
      every character and at the end. */
  function Replace(s: string, old_: string, new_: string): string {
    if old_ == [] then (if s == [] then new_ else new_ + [s[0]] + Replace(s[1..], old_, new_))
    else if s == [] then []
    else if old_ <= s then new_ + Replace(s[|old_|..], old_, new_)
    else [s[0]] + Replace(s[1..], old_, new_)
  }

  lemma AtShifts(a: string, b: string, i: int, t: string)
    requires |a| <= i
    ensures At(a + b, i, t) <==> At(b, i - |a|, t)
  {
    if i <= |a| + |b| {
      assert (a + b)[i..] == b[i - |a|..];
    }
  }

  lemma AtChars(s: string, i: int, t: string)
    ensures At(s, i, t) <==> 0 <= i && i + |t| <= |s| && forall n :: 0 <= n < |t| ==> s[i + n] == t[n]
  {
    if 0 <= i <= |s| {
      assert forall n :: 0 <= n < |s| - i ==> s[i..][n] == s[i + n];
      if i + |t| <= |s| && forall n :: 0 <= n < |t| ==> s[i + n] == t[n] {
        assert s[i..][..|t|] == t;
      }
    }
  }

  // What holds no match is copied.
  lemma {:induction false} ReplaceCopies(a: string, b: string, old_: string, new_: string)
    requires old_ != [] && forall i :: 0 <= i < |a| ==> !At(a + b, i, old_)
    ensures Replace(a + b, old_, new_) == a + Replace(b, old_, new_)
  {
    if a == [] {
      assert a + b == b;
    } else {
      ReplaceStep(a, b, old_, new_);
      NoMatchAfter(a, b, old_);
      ReplaceCopies(a[1..], b, old_, new_);
      FirstAgain(a, Replace(b, old_, new_));
    }
  }

  lemma FirstAgain(a: string, t: string)
    requires a != []
    ensures [a[0]] + (a[1..] + t) == a + t
  {
  }

  lemma NoMatchAfter(a: string, b: string, t: string)
    requires a != [] && forall i :: 0 <= i < |a| ==> !At(a + b, i, t)
    ensures forall i :: 0 <= i < |a[1..]| ==> !At(a[1..] + b, i, t)
  {
    forall i | 0 <= i < |a[1..]|
      ensures !At(a[1..] + b, i, t)
    {
      assert !At(a + b, i + 1, t);
      assert (a + b)[i + 1..] == (a[1..] + b)[i..];
    }
  }

  lemma ReplaceStep(a: string, b: string, old_: string, new_: string)
    requires old_ != [] && a != [] && !At(a + b, 0, old_)
    ensures Replace(a + b, old_, new_) == [a[0]] + Replace(a[1..] + b, old_, new_)
  {
    assert (a + b)[0..] == a + b && (a + b)[1..] == a[1..] + b;
  }

  lemma ReplaceFirst(b: string, old_: string, new_: string)
    requires old_ != []
    ensures Replace(old_ + b, old_, new_) == new_ + Replace(b, old_, new_)
  {
    assert (old_ + b)[|old_|..] == b;
  }

  lemma ReplaceAfter(a: string, old_: string, b: string, new_: string)
    requires old_ != [] && forall i :: 0 <= i < |a| ==> !At(a + (old_ + b), i, old_)
    ensures Replace(a + (old_ + b), old_, new_) == a + new_ + Replace(b, old_, new_)
  {
    ReplaceCopies(a, old_ + b, old_, new_);
    ReplaceFirst(b, old_, new_);
  }

  lemma ReplaceNothing(s: string, old_: string, new_: string)
    requires old_ != [] && !Contains(s, old_)
    ensures Replace(s, old_, new_) == s
  {
    assert forall i :: 0 <= i < |s| ==> !At(s, i, old_);
    assert s + [] == s;
    ReplaceCopies(s, [], old_, new_);
  }
}
