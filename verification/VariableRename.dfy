/** Renaming a variable rewrites the templates that use it: on the text, by a regular expression. */
module VariableRename {
  import opened Basics

  predicate IsBlank(c: char) { c in " \t\n\r" }

  predicate IsNameChar(c: char) { 'a' <= c <= 'z' || 'A' <= c <= 'Z' || '0' <= c <= '9' || c == '_' }

  predicate IsName(s: string) { s != [] && forall c :: c in s ==> IsNameChar(c) }

  // Names that Jinja does not look up among the values.
  const RESERVED := {"true", "false", "none", "True", "False", "None", "not", "self"}

  predicate IsVariable(name: string) {
    name != [] && !('0' <= name[0] <= '9') && name !in RESERVED
  }

  // --- Scanning ------------------------------------------------------------------------------

  // The longest prefix of characters with `p`, and the rest.
  function Span(s: string, p: char -> bool): (r: (string, string))
    ensures s == r.0 + r.1 && (forall c :: c in r.0 ==> p(c)) && (r.1 != [] ==> !p(r.1[0]))
  {
    if s != [] && p(s[0]) then
      var (a, b) := Span(s[1..], p);
      ([s[0]] + a, b)
    else ([], s)
  }

  // What follows a prefix.
  function Peel(s: string, prefix: string): (r: Option<string>)
    ensures r.Some? ==> s == prefix + r.value
  {
    if prefix <= s then Some(s[|prefix|..]) else None
  }

  lemma {:induction false} SpanOf(a: string, b: string, p: char -> bool)
    requires (forall c :: c in a ==> p(c)) && (b != [] ==> !p(b[0]))
    ensures Span(a + b, p) == (a, b)
  {
    if a == [] {
      assert a + b == b;
    } else {
      assert (a + b)[0] == a[0] && (a + b)[1..] == a[1..] + b;
      SpanOf(a[1..], b, p);
      assert [a[0]] + a[1..] == a;
    }
  }

  lemma PeelOf(prefix: string, rest: string)
    ensures Peel(prefix + rest, prefix) == Some(rest)
  {
    assert (prefix + rest)[|prefix|..] == rest;
  }

  // --- The text rewrite ----------------------------------------------------------------------

  // A match of the pattern at the start of a text: the blanks around the name, and what follows.
  datatype Match = Match(left: string, right: string, rest: string)

  /** The pattern: two braces, blanks, the old name, blanks, two braces. */
  function MatchAt(s: string, old_: string): (r: Option<Match>)
    ensures r.Some? ==> |r.value.rest| < |s|
  {
    var s1 := Peel(s, "{{");
    if s1.None? then None
    else
      var (left, s2) := Span(s1.value, IsBlank);
      var s3 := Peel(s2, old_);
      if s3.None? then None
      else
        var (right, s4) := Span(s3.value, IsBlank);
        var s5 := Peel(s4, "}}");
        if s5.None? then None else Some(Match(left, right, s5.value))
  }

  /** Replace every match, left to right. */
  function Sub(s: string, old_: string, new_: string): string
    decreases |s|
  {
    if s == [] then []
    else match MatchAt(s, old_)
      case None => [s[0]] + Sub(s[1..], old_, new_)
      case Some(m) => Tag(m.left, new_, m.right, Sub(m.rest, old_, new_))
  }

  function Tag(left: string, name: string, right: string, rest: string): string {
    "{{" + (left + (name + (right + ("}}" + rest))))
  }

  // --- Plain templates -----------------------------------------------------------------------

  // A character of text, or a placeholder with the blanks around its name.
  datatype Piece = Lit(c: char) | Hole(left: string, name: string, right: string)

  /** Templates of text and plain placeholders; `None` for anything else that starts like a tag. */
  function Parse(s: string): Option<seq<Piece>>
    decreases |s|
  {
    if s == [] then Some([])
    else if "{{" <= s then
      var h := HoleAt(s);
      if h.None? then None
      else
        var rest := Parse(h.value.1);
        if rest.None? then None else Some([h.value.0] + rest.value)
    else if "{%" <= s || "{#" <= s then None
    else
      var rest := Parse(s[1..]);
      if rest.None? then None else Some([Lit(s[0])] + rest.value)
  }

  function HoleAt(s: string): (r: Option<(Piece, string)>)
    ensures r.Some? ==> HoleOk(r.value.0) && s == HoleThen(r.value.0, r.value.1) && |r.value.1| < |s|
  {
    var s1 := Peel(s, "{{");
    if s1.None? then None
    else
      var (left, s2) := Span(s1.value, IsBlank);
      var (name, s3) := Span(s2, IsNameChar);
      var (right, s4) := Span(s3, IsBlank);
      var s5 := Peel(s4, "}}");
      if name == [] || s5.None? then None else Some((Hole(left, name, right), s5.value))
  }

  predicate HoleOk(h: Piece) {
    h.Hole? && IsName(h.name) && (forall c :: c in h.left ==> IsBlank(c)) && (forall c :: c in h.right ==> IsBlank(c))
  }

  function HoleThen(h: Piece, rest: string): string
    requires h.Hole?
  {
    Tag(h.left, h.name, h.right, rest)
  }

  function Names(t: seq<Piece>): set<string> {
    set i | 0 <= i < |t| && t[i].Hole? :: t[i].name
  }

  // What Jinja makes of a name that is no variable, such as `1` or `true`.
  type Literals = string -> string

  // Rendering: a variable without a value renders as nothing.
  function Shown(p: Piece, literals: Literals, env: map<string, string>): string {
    match p
    case Lit(c) => [c]
    case Hole(_, name, _) => if !IsVariable(name) then literals(name) else if name in env then env[name] else []
  }

  function Render(t: seq<Piece>, literals: Literals, env: map<string, string>): string {
    if t == [] then [] else Shown(t[0], literals, env) + Render(t[1..], literals, env)
  }

  function Renamed(p: Piece, old_: string, new_: string): Piece {
    if p.Hole? && p.name == old_ then p.(name := new_) else p
  }

  function Rename(t: seq<Piece>, old_: string, new_: string): seq<Piece> {
    if t == [] then []
    else
      [Renamed(t[0], old_, new_)] + Rename(t[1..], old_, new_)
  }

  function RenameEnv(env: map<string, string>, old_: string, new_: string): map<string, string> {
    if old_ in env then (env - {old_})[new_ := env[old_]] else env
  }

  // --- The rewrite on text is the rename on templates --------------------------------------------

  // What follows the braces of a tag, step by step.
  lemma TagScanned(left: string, name: string, right: string, rest: string)
    requires IsName(name) && (forall c :: c in left ==> IsBlank(c)) && (forall c :: c in right ==> IsBlank(c))
    ensures Peel(Tag(left, name, right, rest), "{{") == Some(left + (name + (right + ("}}" + rest))))
    ensures Span(left + (name + (right + ("}}" + rest))), IsBlank) == (left, name + (right + ("}}" + rest)))
    ensures Span(name + (right + ("}}" + rest)), IsNameChar) == (name, right + ("}}" + rest))
    ensures Span(right + ("}}" + rest), IsBlank) == (right, "}}" + rest)
    ensures Peel("}}" + rest, "}}") == Some(rest)
  {
    var close := "}}" + rest;
    var tail := right + close;
    assert close[0] == '}' && (name + tail)[0] == name[0] && name[0] in name;
    assert tail[0] == '}' || IsBlank(tail[0]);
    PeelOf("{{", left + (name + tail));
    SpanOf(left, name + tail, IsBlank);
    SpanOf(name, tail, IsNameChar);
    SpanOf(right, close, IsBlank);
    PeelOf("}}", rest);
  }

  lemma HoleParsed(h: Piece, rest: string)
    requires HoleOk(h)
    ensures "{{" <= HoleThen(h, rest) && HoleAt(HoleThen(h, rest)) == Some((h, rest))
  {
    TagScanned(h.left, h.name, h.right, rest);
  }

  // A hole matches exactly if it holds the old name.
  lemma HoleMatches(h: Piece, rest: string, old_: string)
    requires HoleOk(h) && IsName(old_)
    ensures MatchAt(HoleThen(h, rest), old_) == if h.name == old_ then Some(Match(h.left, h.right, rest)) else None
  {
    TagScanned(h.left, h.name, h.right, rest);
    var tail := h.right + ("}}" + rest);
    if h.name == old_ {
      PeelOf(old_, tail);
    } else if Peel(h.name + tail, old_).Some? {
      NameGoesOn(old_, Peel(h.name + tail, old_).value, h.name, tail);
    }
  }

  // If another name starts with the old one, a name character follows, and no braces.
  lemma NameGoesOn(old_: string, after: string, name: string, tail: string)
    requires IsName(old_) && IsName(name) && old_ != name && old_ + after == name + tail
    requires tail != [] && !IsNameChar(tail[0])
    ensures after != [] && IsNameChar(after[0]) && Span(after, IsBlank) == ([], after) && Peel(after, "}}").None?
  {
    var s := name + tail;
    assert forall i :: 0 <= i < |old_| ==> s[i] == old_[i] && old_[i] in old_;
    assert forall i :: 0 <= i < |name| ==> s[i] == name[i] && name[i] in name;
    assert s[|name|] == tail[0];
    assert |old_| <= |name|;
    assert old_ == s[..|old_|] && name == s[..|name|];
    assert after[0] == s[|old_|];
    assert [] + after == after;
    SpanOf([], after, IsBlank);
  }

  // A character that starts no match is copied.
  lemma SubCopies(c: char, rest: string, old_: string, new_: string)
    requires c != '{' || rest == [] || rest[0] != '{' || MatchAt([c] + rest, old_).None?
    ensures Sub([c] + rest, old_, new_) == [c] + Sub(rest, old_, new_)
  {
    var s := [c] + rest;
    assert s[0] == c && s[1..] == rest;
    assert "{{" <= s ==> s[0] == '{' && s[1] == '{';
  }

  lemma {:induction false} SubSkips(t: string, rest: string, old_: string, new_: string)
    requires '{' !in t
    ensures Sub(t + rest, old_, new_) == t + Sub(rest, old_, new_)
  {
    FirstOf(t, rest);
    FirstOf(t, Sub(rest, old_, new_));
    if t != [] {
      SubCopies(t[0], t[1..] + rest, old_, new_);
      SubSkips(t[1..], rest, old_, new_);
    }
  }

  lemma FirstOf(t: string, rest: string)
    ensures t == [] ==> t + rest == rest
    ensures t != [] ==> t + rest == [t[0]] + (t[1..] + rest) && t[0] in t && forall c :: c in t[1..] ==> c in t
  {
  }

  // A hole with another name is copied as it is.
  lemma SubSkipsHole(h: Piece, rest: string, old_: string, new_: string)
    requires HoleOk(h) && IsName(old_) && h.name != old_
    ensures Sub(HoleThen(h, rest), old_, new_) == HoleThen(h, Sub(rest, old_, new_))
  {
    HoleMatches(h, rest, old_);
    var t := h.left + (h.name + (h.right + "}}"));
    assert '{' !in t;
    assert t[0] in t && (t + rest)[0] == t[0];
    HoleAsText(h, t, rest);
    HoleAsText(h, t, Sub(rest, old_, new_));
    SubCopies('{', "{" + (t + rest), old_, new_);
    SubCopies('{', t + rest, old_, new_);
    SubSkips(t, rest, old_, new_);
  }

  lemma HoleAsText(h: Piece, t: string, rest: string)
    requires h.Hole? && t == h.left + (h.name + (h.right + "}}"))
    ensures HoleThen(h, rest) == ['{'] + ("{" + (t + rest))
  {
  }

  /** Main result: rewriting the text of a plain template is renaming in the template, and names that merely
      contain the old one are left alone. */
  lemma {:induction false} SubIsRename(s: string, old_: string, new_: string)
    requires IsName(old_) && IsName(new_) && Parse(s).Some?
    ensures Parse(Sub(s, old_, new_)) == Some(Rename(Parse(s).value, old_, new_))
    decreases |s|
  {
    if s != [] {
      if "{{" <= s {
        var (h, rest) := HoleAt(s).value;
        SubIsRename(rest, old_, new_);
        HoleMatches(h, rest, old_);
        var h' := if h.name == old_ then h.(name := new_) else h;
        if h.name != old_ {
          SubSkipsHole(h, rest, old_, new_);
        }
        assert Sub(s, old_, new_) == HoleThen(h', Sub(rest, old_, new_));
        HoleParsed(h', Sub(rest, old_, new_));
        RenameFirst(h, Parse(rest).value, old_, new_);
      } else {
        SubIsRename(s[1..], old_, new_);
        CharParsed(s, old_, new_);
        RenameFirst(Lit(s[0]), Parse(s[1..]).value, old_, new_);
      }
    }
  }

  lemma RenameFirst(p: Piece, t: seq<Piece>, old_: string, new_: string)
    ensures Rename([p] + t, old_, new_) == [Renamed(p, old_, new_)] + Rename(t, old_, new_)
  {
    assert ([p] + t)[1..] == t;
  }

  // A character that starts no tag still starts none after the rewrite.
  lemma CharParsed(s: string, old_: string, new_: string)
    requires s != [] && !("{{" <= s) && !("{%" <= s) && !("{#" <= s)
    requires Parse(Sub(s[1..], old_, new_)).Some?
    ensures Parse(Sub(s, old_, new_)) == Some([Lit(s[0])] + Parse(Sub(s[1..], old_, new_)).value)
  {
    var rest := Sub(s[1..], old_, new_);
    var s' := Sub(s, old_, new_);
    assert s' == [s[0]] + rest && s'[1..] == rest;
    SubKeepsFirst(s[1..], old_, new_);
    assert |s'| > 1 ==> s'[1] == s[1];
  }

  lemma SubKeepsFirst(s: string, old_: string, new_: string)
    ensures s == [] <==> Sub(s, old_, new_) == []
    ensures s != [] ==> Sub(s, old_, new_)[0] == s[0]
  {
  }

  // --- When the rename preserves meaning ---------------------------------------------------------

  /** For all values, a template that is rewritten renders as it did before with the variable under its old name. */
  ghost predicate RewrittenSafe(t: seq<Piece>, literals: Literals, old_: string, new_: string) {
    forall env :: new_ !in env ==>
      Render(Rename(t, old_, new_), literals, RenameEnv(env, old_, new_)) == Render(t, literals, env)
  }

  /** The same for a template that is not rewritten. */
  ghost predicate UnchangedSafe(t: seq<Piece>, literals: Literals, old_: string, new_: string) {
    forall env :: new_ !in env ==> Render(t, literals, RenameEnv(env, old_, new_)) == Render(t, literals, env)
  }

  // `new_` is a variable that the template did not use, and `old_` is a variable or does not occur; or `new_` is none
  // and takes the place of nothing, or of a literal that looks the same.
  ghost predicate SafeNames(t: seq<Piece>, literals: Literals, old_: string, new_: string) {
    if IsVariable(new_) then new_ !in Names(t) && (IsVariable(old_) || old_ !in Names(t))
    else old_ !in Names(t) || (!IsVariable(old_) && literals(old_) == literals(new_))
  }

  lemma NamesLater(t: seq<Piece>)
    requires t != []
    ensures Names(t) == Names(t[1..]) + (if t[0].Hole? then {t[0].name} else {})
  {
    forall x | x in Names(t)
      ensures x in Names(t[1..]) + (if t[0].Hole? then {t[0].name} else {})
    {
      var i :| 0 <= i < |t| && t[i].Hole? && t[i].name == x;
      if i > 0 {
        assert t[1..][i - 1] == t[i];
      }
    }
    forall x | x in Names(t[1..])
      ensures x in Names(t)
    {
      var i :| 0 <= i < |t[1..]| && t[1..][i].Hole? && t[1..][i].name == x;
      assert t[i + 1] == t[1..][i];
    }
  }

  lemma RenameLater(t: seq<Piece>, old_: string, new_: string)
    requires t != []
    ensures var t' := Rename(t, old_, new_);
            t' != [] && t'[0] == Renamed(t[0], old_, new_) && t'[1..] == Rename(t[1..], old_, new_)
  {
  }

  lemma {:induction false} RenameKeepsMeaning(t: seq<Piece>, literals: Literals, env: map<string, string>,
                                              old_: string, new_: string)
    requires old_ != new_ && new_ !in env && SafeNames(t, literals, old_, new_)
    ensures Render(Rename(t, old_, new_), literals, RenameEnv(env, old_, new_)) == Render(t, literals, env)
  {
    if t != [] {
      NamesLater(t);
      RenameLater(t, old_, new_);
      RenameKeepsMeaning(t[1..], literals, env, old_, new_);
    }
  }

  function Uses(t: seq<Piece>, name: string): nat {
    if t == [] then 0 else (if t[0].Hole? && t[0].name == name then 1 else 0) + Uses(t[1..], name)
  }

  lemma {:induction false} UsesNames(t: seq<Piece>, name: string)
    ensures Uses(t, name) > 0 <==> name in Names(t)
  {
    if t != [] {
      NamesLater(t);
      UsesNames(t[1..], name);
    }
  }

  // The length of what renders from other pieces than the two names.
  function OtherLength(t: seq<Piece>, literals: Literals, old_: string, new_: string): nat {
    if t == [] then 0
    else (if t[0].Hole? && t[0].name in {old_, new_} then 0 else |Shown(t[0], literals, map[])|)
         + OtherLength(t[1..], literals, old_, new_)
  }

  // How long a hole with a name is, if that one name has the value `v`.
  function HoleLength(literals: Literals, name: string, valued: string, v: string): nat {
    if !IsVariable(name) then |literals(name)| else if name == valued then |v| else 0
  }

  lemma {:induction false} RenderedLength(t: seq<Piece>, literals: Literals, old_: string, new_: string,
                                          valued: string, v: string)
    requires old_ != new_ && valued in {old_, new_}
    ensures |Render(t, literals, map[valued := v])|
         == OtherLength(t, literals, old_, new_) + Uses(t, old_) * HoleLength(literals, old_, valued, v)
            + Uses(t, new_) * HoleLength(literals, new_, valued, v)
  {
    if t != [] {
      RenderedLength(t[1..], literals, old_, new_, valued, v);
      OneMore(Uses(t[1..], old_), HoleLength(literals, old_, valued, v));
      OneMore(Uses(t[1..], new_), HoleLength(literals, new_, valued, v));
    }
  }

  lemma OneMore(n: nat, k: nat)
    ensures (n + 1) * k == n * k + k
  {
  }

  // After a rename the new name is used where either was.
  lemma {:induction false} RenamedUses(t: seq<Piece>, literals: Literals, old_: string, new_: string)
    requires old_ != new_
    ensures Uses(Rename(t, old_, new_), new_) == Uses(t, old_) + Uses(t, new_) && Uses(Rename(t, old_, new_), old_) == 0
    ensures OtherLength(Rename(t, old_, new_), literals, old_, new_) == OtherLength(t, literals, old_, new_)
  {
    if t != [] {
      RenameLater(t, old_, new_);
      RenamedUses(t[1..], literals, old_, new_);
    }
  }

  // The lengths with the value `v` of the variable, before and after.
  lemma LengthsAgree(t: seq<Piece>, literals: Literals, old_: string, new_: string, v: string)
    requires old_ != new_ && RewrittenSafe(t, literals, old_, new_)
    ensures Uses(t, old_) * HoleLength(literals, old_, old_, v) + Uses(t, new_) * HoleLength(literals, new_, old_, v)
         == (Uses(t, old_) + Uses(t, new_)) * HoleLength(literals, new_, new_, v)
  {
    hide Render, Rename, Uses, OtherLength, HoleLength;
    var env := map[old_ := v];
    assert new_ !in env && RenameEnv(env, old_, new_) == map[new_ := v];
    assert Render(Rename(t, old_, new_), literals, RenameEnv(env, old_, new_)) == Render(t, literals, env);
    RenderedLength(t, literals, old_, new_, old_, v);
    RenderedLength(Rename(t, old_, new_), literals, old_, new_, new_, v);
    RenamedUses(t, literals, old_, new_);
  }

  lemma LessTimes(n: nat, k: nat, l: nat)
    requires n > 0 && k < l
    ensures n * k < n * l
  {
    assert n * l == n * k + n * (l - k);
  }

  lemma Cancel(n: nat, k: nat, l: nat)
    requires n > 0 && n * k == n * l
    ensures k == l
  {
    if k < l {
      LessTimes(n, k, l);
    } else if l < k {
      LessTimes(n, l, k);
    }
  }

  // Literals of one length that render alike are the same.
  lemma {:induction false} SameLiteral(t: seq<Piece>, literals: Literals, old_: string, new_: string)
    requires !IsVariable(old_) && !IsVariable(new_) && |literals(old_)| == |literals(new_)| && old_ in Names(t)
    requires Render(Rename(t, old_, new_), literals, map[]) == Render(t, literals, map[])
    ensures literals(old_) == literals(new_)
  {
    NamesLater(t);
    RenameLater(t, old_, new_);
    var first, first' := Shown(t[0], literals, map[]), Shown(Renamed(t[0], old_, new_), literals, map[]);
    var rest, rest' := Render(t[1..], literals, map[]), Render(Rename(t[1..], old_, new_), literals, map[]);
    assert first + rest == first' + rest' && |first| == |first'|;
    assert first == (first + rest)[..|first|] && first' == (first' + rest')[..|first'|];
    assert rest == (first + rest)[|first|..] && rest' == (first' + rest')[|first'|..];
    if !(t[0].Hole? && t[0].name == old_) {
      SameLiteral(t[1..], literals, old_, new_);
    }
  }

  lemma SafeVariable(t: seq<Piece>, literals: Literals, old_: string, new_: string)
    requires old_ != new_ && RewrittenSafe(t, literals, old_, new_) && IsVariable(new_)
    ensures Uses(t, new_) == 0 && (IsVariable(old_) || Uses(t, old_) == 0)
  {
    hide RewrittenSafe, Uses, IsVariable;
    LengthsAgree(t, literals, old_, new_, []);
    LengthsAgree(t, literals, old_, new_, "x");
    assert HoleLength(literals, new_, old_, []) == HoleLength(literals, new_, old_, "x") == 0;
    assert HoleLength(literals, new_, new_, []) == 0 && HoleLength(literals, new_, new_, "x") == 1;
  }

  lemma SafeLiteral(t: seq<Piece>, literals: Literals, old_: string, new_: string)
    requires old_ != new_ && RewrittenSafe(t, literals, old_, new_) && !IsVariable(new_) && Uses(t, old_) > 0
    ensures !IsVariable(old_) && |literals(old_)| == |literals(new_)|
  {
    hide RewrittenSafe, Uses, IsVariable;
    var u, w := Uses(t, old_), Uses(t, new_);
    var shown := |literals(new_)|;
    LengthsAgree(t, literals, old_, new_, []);
    LengthsAgree(t, literals, old_, new_, "x");
    Distribute(u, w, shown);
    assert IsVariable(old_) ==> HoleLength(literals, old_, old_, []) == 0 && HoleLength(literals, old_, old_, "x") == 1;
    if !IsVariable(old_) {
      Cancel(u, |literals(old_)|, shown);
    }
  }

  lemma Distribute(n: nat, m: nat, k: nat)
    ensures (n + m) * k == n * k + m * k
  {
  }

  lemma SafeOnlyIf(t: seq<Piece>, literals: Literals, old_: string, new_: string)
    requires old_ != new_ && RewrittenSafe(t, literals, old_, new_)
    ensures SafeNames(t, literals, old_, new_)
  {
    hide Uses, Names, Render, Rename, IsVariable;
    UsesNames(t, old_);
    UsesNames(t, new_);
    if IsVariable(new_) {
      SafeVariable(t, literals, old_, new_);
    } else if old_ in Names(t) {
      SafeLiteral(t, literals, old_, new_);
      assert RenameEnv(map[], old_, new_) == map[];
      SameLiteral(t, literals, old_, new_);
    }
  }

  /** Main result: exactly when a rewritten template keeps its meaning, for all values. */
  lemma RenameSafeIff(t: seq<Piece>, literals: Literals, old_: string, new_: string)
    requires old_ != new_
    ensures RewrittenSafe(t, literals, old_, new_) <==> SafeNames(t, literals, old_, new_)
  {
    if SafeNames(t, literals, old_, new_) {
      forall env | new_ !in env
        ensures Render(Rename(t, old_, new_), literals, RenameEnv(env, old_, new_)) == Render(t, literals, env)
      {
        RenameKeepsMeaning(t, literals, env, old_, new_);
      }
    }
    if RewrittenSafe(t, literals, old_, new_) {
      SafeOnlyIf(t, literals, old_, new_);
    }
  }

  // Values of names that are not read do not matter.
  lemma {:induction false} SameValues(t: seq<Piece>, literals: Literals, env: map<string, string>,
                                      env': map<string, string>)
    requires forall x :: x in Names(t) && IsVariable(x) ==>
               (x in env <==> x in env') && (x in env ==> env[x] == env'[x])
    ensures Render(t, literals, env) == Render(t, literals, env')
  {
    if t != [] {
      NamesLater(t);
      SameValues(t[1..], literals, env, env');
    }
  }

  /** A template that is not rewritten keeps its meaning, for all values, exactly if it does not use the old variable
      (given that it does not use the new one). */
  lemma UnchangedSafeIff(t: seq<Piece>, literals: Literals, old_: string, new_: string)
    requires old_ != new_ && !(IsVariable(new_) && new_ in Names(t))
    ensures UnchangedSafe(t, literals, old_, new_) <==> !(IsVariable(old_) && old_ in Names(t))
  {
    if IsVariable(old_) && old_ in Names(t) {
      UsesNames(t, old_);
      UsesNames(t, new_);
      var env := map[old_ := "x"];
      assert RenameEnv(env, old_, new_) == map[new_ := "x"];
      RenderedLength(t, literals, old_, new_, old_, "x");
      RenderedLength(t, literals, old_, new_, new_, "x");
      assert |Render(t, literals, RenameEnv(env, old_, new_))| < |Render(t, literals, env)|;
    } else {
      forall env | new_ !in env
        ensures Render(t, literals, RenameEnv(env, old_, new_)) == Render(t, literals, env)
      {
        SameValues(t, literals, RenameEnv(env, old_, new_), env);
      }
    }
  }

  lemma HoleAlone(h: Piece, literals: Literals, env: map<string, string>)
    requires HoleOk(h)
    ensures Parse(HoleThen(h, [])) == Some([h])
    ensures Render([h], literals, env) == Shown(h, literals, env)
  {
    HoleParsed(h, []);
    assert [h] + [] == [h] && [h][1..] == [];
  }

  lemma ShortNames()
    ensures IsVariable("a") && !IsVariable("1")
  {
    assert forall x :: x in RESERVED ==> |x| > 1;
    assert "a"[0] == 'a' && "1"[0] == '1';
  }

  /** A reference may be `1`: the template then shows the number. */
  lemma NumberLosesMeaning(literals: Literals)
    requires literals("1") == "1"
    ensures var t, t' := Parse("{{ a }}"), Parse(Sub("{{ a }}", "a", "1"));
            && t.Some? && t'.Some?
            && Render(t.value, literals, map["a" := "x"]) == "x"
            && Render(t'.value, literals, RenameEnv(map["a" := "x"], "a", "1")) == "1"
  {
    hide Sub, Parse, Render, RESERVED;
    ShortNames();
    var h := Hole(" ", "a", " ");
    assert "{{ a }}" == HoleThen(h, []);
    HoleAlone(h, literals, map["a" := "x"]);
    SubIsRename("{{ a }}", "a", "1");
    assert Rename([h], "a", "1") == [Hole(" ", "1", " ")];
    HoleAlone(Hole(" ", "1", " "), literals, RenameEnv(map["a" := "x"], "a", "1"));
  }
}
