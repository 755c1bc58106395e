/** The type grammar of problem signatures and its translation to eight languages. */
module TypeGrammar {
  import opened Options
  import opened Text

  datatype Prim = Number | Str | Boolean | Void

  datatype Gen = Array | Matrix | Tree | LinkedList | Graph

  /** A type of the platform. */
  datatype Ty = Base(prim: Prim) | Of(gen: Gen, inner: Ty)

  datatype Kind = PrimKind(prim: Prim) | GenKind(gen: Gen)

  function PrimName(p: Prim): string {
    match p
    case Number => "number"
    case Str => "string"
    case Boolean => "boolean"
    case Void => "void"
  }

  function GenName(g: Gen): string {
    match g
    case Array => "array"
    case Matrix => "matrix"
    case Tree => "tree"
    case LinkedList => "linkedlist"
    case Graph => "graph"
  }

  function Name(k: Kind): string {
    match k
    case PrimKind(p) => PrimName(p)
    case GenKind(g) => GenName(g)
  }

  const KINDS: seq<Kind> := [
    PrimKind(Number), PrimKind(Str), PrimKind(Boolean), GenKind(Array), GenKind(Matrix), GenKind(Tree),
    GenKind(LinkedList), GenKind(Graph), PrimKind(Void)
  ]

  function FindKind(name: string, kinds: seq<Kind>): Option<Kind> {
    if kinds == [] then None
    else if Name(kinds[0]) == name then Some(kinds[0])
    else FindKind(name, kinds[1..])
  }

  /** The kind a name stands for, if it is one of the valid kinds. */
  function KindNamed(name: string): Option<Kind> {
    FindKind(name, KINDS)
  }

  lemma {:induction false} FoundHasName(name: string, kinds: seq<Kind>)
    requires FindKind(name, kinds).Some?
    ensures Name(FindKind(name, kinds).value) == name
  {
    if Name(kinds[0]) == name {
    } else {
      FoundHasName(name, kinds[1..]);
    }
  }

  lemma {:induction false} KnownIsFound(k: Kind, kinds: seq<Kind>)
    requires k in kinds
    ensures FindKind(Name(k), kinds) == Some(k)
  {
    if Name(kinds[0]) == Name(k) {
      NamesDiffer(kinds[0], k);
    } else {
      KnownIsFound(k, kinds[1..]);
    }
  }

  // No two names begin alike.
  function KindWith(first: char): Kind {
    if first == 'n' then PrimKind(Number)
    else if first == 's' then PrimKind(Str)
    else if first == 'b' then PrimKind(Boolean)
    else if first == 'v' then PrimKind(Void)
    else if first == 'a' then GenKind(Array)
    else if first == 'm' then GenKind(Matrix)
    else if first == 't' then GenKind(Tree)
    else if first == 'l' then GenKind(LinkedList)
    else GenKind(Graph)
  }

  lemma FirstLetterTells(k: Kind)
    ensures Name(k) != "" && KindWith(Name(k)[0]) == k
  {
    match k
    case PrimKind(Number) => assert Name(k) == "number";
    case PrimKind(Str) => assert Name(k) == "string";
    case PrimKind(Boolean) => assert Name(k) == "boolean";
    case PrimKind(Void) => assert Name(k) == "void";
    case GenKind(Array) => assert Name(k) == "array";
    case GenKind(Matrix) => assert Name(k) == "matrix";
    case GenKind(Tree) => assert Name(k) == "tree";
    case GenKind(LinkedList) => assert Name(k) == "linkedlist";
    case GenKind(Graph) => assert Name(k) == "graph";
  }

  lemma NamesDiffer(k: Kind, j: Kind)
    requires Name(k) == Name(j)
    ensures k == j
  {
    FirstLetterTells(k);
    FirstLetterTells(j);
  }

  lemma NamesAreKnown(k: Kind)
    ensures KindNamed(Name(k)) == Some(k)
  {
    match k {
      case PrimKind(Number) => assert k == KINDS[0];
      case PrimKind(Str) => assert k == KINDS[1];
      case PrimKind(Boolean) => assert k == KINDS[2];
      case PrimKind(Void) => assert k == KINDS[8];
      case GenKind(Array) => assert k == KINDS[3];
      case GenKind(Matrix) => assert k == KINDS[4];
      case GenKind(Tree) => assert k == KINDS[5];
      case GenKind(LinkedList) => assert k == KINDS[6];
      case GenKind(Graph) => assert k == KINDS[7];
    }
    KnownIsFound(k, KINDS);
  }

  /** The kinds and their names. */
  lemma KindNames()
    ensures seq(|KINDS|, i requires 0 <= i < |KINDS| => Name(KINDS[i])) ==
            ["number", "string", "boolean", "array", "matrix", "tree", "linkedlist", "graph", "void"]
    ensures forall k, i | 0 <= i < |KINDS| && k == KINDS[i] :: k.GenKind? <==> 3 <= i <= 7
    ensures KINDS[4] == GenKind(Matrix) && KINDS[3] == GenKind(Array) && KINDS[0] == PrimKind(Number)
  {
  }

  // -- the pattern --------------------------------------------------------------------------------------

  // What the pattern's dot does not match.
  predicate IsLineEnd(c: char) {
    c == '\n' || c == '\r' || c == '\U{2028}' || c == '\U{2029}'
  }

  predicate OneLine(s: string) {
    forall i | 0 <= i < |s| :: !IsLineEnd(s[i])
  }

  predicate Letters(s: string) {
    forall i | 0 <= i < |s| :: 'a' <= s[i] <= 'z'
  }

  // What the pattern captures: the kind, and what stands between the angle brackets, if they are there.
  datatype Capture = Capture(kind: string, inner: Option<string>)

  /** The pattern's meaning: one or more letters, then nothing or a non-empty line in angle brackets. */
  predicate Fits(s: string, c: Capture) {
    && c.kind != "" && Letters(c.kind)
    && match c.inner
       case None => s == c.kind
       case Some(t) => t != "" && OneLine(t) && s == c.kind + "<" + t + ">"
  }

  function LeadingLetters(s: string): (n: nat)
    ensures n <= |s| && Letters(s[..n]) && (n == |s| || !('a' <= s[n] <= 'z'))
  {
    if s != "" && 'a' <= s[0] <= 'z' then
      var n := LeadingLetters(s[1..]) + 1;
      assert forall i | 0 <= i < n :: 'a' <= s[..n][i] <= 'z' by {
        assert forall i | 1 <= i < n :: s[..n][i] == s[1..][..n - 1][i - 1];
      }
      n
    else 0
  }

  function Match(s: string): (m: Option<Capture>)
    ensures m.Some? && m.value.inner.Some? ==> |m.value.inner.value| < |s|
  {
    var n := LeadingLetters(s);
    if n == 0 then None
    else if n == |s| then Some(Capture(s, None))
    else if s[n] == '<' && n + 3 <= |s| && s[|s| - 1] == '>' && OneLine(s[n + 1..|s| - 1]) then
      Some(Capture(s[..n], Some(s[n + 1..|s| - 1])))
    else None
  }

  lemma LettersLead(s: string, n: nat)
    requires n <= |s| && Letters(s[..n]) && (n == |s| || !('a' <= s[n] <= 'z'))
    ensures LeadingLetters(s) == n
  {
    var m := LeadingLetters(s);
    assert forall i | 0 <= i < n :: s[..n][i] == s[i];
    assert forall i | 0 <= i < m :: s[..m][i] == s[i];
  }

  lemma MatchFits(s: string)
    requires Match(s).Some?
    ensures Fits(s, Match(s).value)
  {
    var n := LeadingLetters(s);
    if n < |s| {
      assert s == s[..n] + [s[n]] + s[n + 1..|s| - 1] + [s[|s| - 1]];
    } else {
      assert s[..n] == s;
    }
  }

  lemma FittingMatches(s: string, c: Capture)
    requires Fits(s, c)
    ensures Match(s) == Some(c)
  {
    var n := |c.kind|;
    assert s[..n] == c.kind;
    if c.inner.Some? {
      assert s[n] == '<' && s[|s| - 1] == '>' && s[n + 1..|s| - 1] == c.inner.value;
    }
    LettersLead(s, n);
  }

  /** Matching finds the one capture that fits, if there is one. */
  lemma MatchIffFits(s: string, c: Capture)
    ensures Match(s) == Some(c) <==> Fits(s, c)
  {
    if Match(s).Some? {
      MatchFits(s);
    }
    if Fits(s, c) {
      FittingMatches(s, c);
    }
  }

  // -- the recogniser -------------------------------------------------------------------------------------

  predicate IsValidType(typeStr: string)
    decreases |typeStr|
  {
    var s := Trim(typeStr, IsWhite);
    s != "" &&
    var m := Match(s);
    m.Some? &&
    var kind := KindNamed(m.value.kind);
    kind.Some? &&
    if kind.value.GenKind? then
      m.value.inner.Some? && IsValidType(m.value.inner.value)
    else
      m.value.inner.None?
  }

  /** The grammar: `s` is a way to write `t`. White space may surround a type at any depth, but inside
      angle brackets only such as does not end a line. */
  ghost predicate Writes(s: string, t: Ty)
    decreases t
  {
    exists l, core, r :: s == l + core + r && AllWhite(l, IsWhite) && AllWhite(r, IsWhite) && WritesCore(core, t)
  }

  ghost predicate WritesCore(core: string, t: Ty)
    decreases t, 0
  {
    match t
    case Base(p) => core == PrimName(p)
    case Of(g, u) => exists inner :: core == GenName(g) + "<" + inner + ">" && OneLine(inner) && Writes(inner, u)
  }

  function Print(t: Ty): string {
    match t
    case Base(p) => PrimName(p)
    case Of(g, u) => GenName(g) + "<" + Print(u) + ">"
  }

  /** The type a text is read as; the recogniser with its answer spelled out. */
  function ParseType(typeStr: string): Option<Ty>
    decreases |typeStr|
  {
    var m := Match(Trim(typeStr, IsWhite));
    if m.None? then None
    else
      match KindNamed(m.value.kind)
      case None => None
      case Some(PrimKind(p)) => if m.value.inner.None? then Some(Base(p)) else None
      case Some(GenKind(g)) =>
        if m.value.inner.None? then None
        else
          var u := ParseType(m.value.inner.value);
          if u.None? then None else Some(Of(g, u.value))
  }

  lemma EmptyIsNoMatch()
    ensures Match("") == None
  {
  }

  lemma {:induction false} ValidIffParses(s: string)
    ensures IsValidType(s) <==> ParseType(s).Some?
    decreases |s|
  {
    EmptyIsNoMatch();
    var m := Match(Trim(s, IsWhite));
    if m.Some? {
      match KindNamed(m.value.kind)
      case None =>
      case Some(PrimKind(_)) =>
      case Some(GenKind(_)) =>
        if m.value.inner.Some? {
          ValidIffParses(m.value.inner.value);
        }
    }
  }

  lemma NamesAreLetters(k: Kind)
    ensures Name(k) != "" && Letters(Name(k))
  {
  }

  lemma CoreIsSolid(core: string, t: Ty)
    requires WritesCore(core, t)
    ensures Solid(core, IsWhite)
  {
    match t
    case Base(p) => NamesAreLetters(PrimKind(p));
    case Of(g, u) =>
      NamesAreLetters(GenKind(g));
      var inner :| core == GenName(g) + "<" + inner + ">" && OneLine(inner) && Writes(inner, u);
      assert core[0] == GenName(g)[0] && core[|core| - 1] == '>';
  }

  lemma {:induction false} ParsedIsWritten(s: string, t: Ty)
    requires ParseType(s) == Some(t)
    ensures Writes(s, t)
    decreases |s|
  {
    var l, r := TrimSplits(s, IsWhite);
    var core := Trim(s, IsWhite);
    MatchFits(core);
    FoundHasName(Match(core).value.kind, KINDS);
    if t.Of? {
      var inner := Match(core).value.inner.value;
      ParsedIsWritten(inner, t.inner);
      assert core == GenName(t.gen) + "<" + inner + ">";
    }
    assert WritesCore(core, t);
  }

  lemma CapturedCore(core: string, name: string, inner: Option<string>, kind: Kind)
    requires Fits(core, Capture(name, inner)) && name == Name(kind) && Trim(core, IsWhite) == core
    ensures Match(core) == Some(Capture(name, inner)) && KindNamed(name) == Some(kind)
  {
    FittingMatches(core, Capture(name, inner));
    NamesAreKnown(kind);
  }

  lemma WrittenCore(s: string, t: Ty) returns (core: string)
    requires Writes(s, t)
    ensures WritesCore(core, t) && Trim(s, IsWhite) == core == Trim(core, IsWhite)
  {
    var l, c, r :| s == l + c + r && AllWhite(l, IsWhite) && AllWhite(r, IsWhite) && WritesCore(c, t);
    core := c;
    CoreIsSolid(core, t);
    TrimRemoves(l, core, r, IsWhite);
    TrimRemoves("", core, "", IsWhite);
    assert "" + core + "" == core;
  }

  lemma {:induction false} WrittenParses(s: string, t: Ty)
    requires Writes(s, t)
    ensures ParseType(s) == Some(t)
    decreases t
  {
    var core := WrittenCore(s, t);
    match t
    case Base(p) =>
      NamesAreLetters(PrimKind(p));
      CapturedCore(core, PrimName(p), None, PrimKind(p));
    case Of(g, u) =>
      var inner :| core == GenName(g) + "<" + inner + ">" && OneLine(inner) && Writes(inner, u);
      NamesAreLetters(GenKind(g));
      WrittenParses(inner, u);
      assert inner != "";
      CapturedCore(core, GenName(g), Some(inner), GenKind(g));
  }

  /** Reading a text gives `t` exactly when the grammar allows the text for `t`: so the recogniser
      accepts the grammar's language, no more and no less, and no text has two readings. */
  lemma ParseIffWrites(s: string, t: Ty)
    ensures ParseType(s) == Some(t) <==> Writes(s, t)
  {
    if ParseType(s) == Some(t) {
      ParsedIsWritten(s, t);
    }
    if Writes(s, t) {
      WrittenParses(s, t);
    }
  }

  ghost predicate InGrammar(s: string) {
    exists t :: Writes(s, t)
  }

  lemma ValidIffInGrammar(s: string)
    ensures IsValidType(s) <==> InGrammar(s)
  {
    ValidIffParses(s);
    if IsValidType(s) {
      ParsedIsWritten(s, ParseType(s).value);
    } else {
      forall t ensures !Writes(s, t) {
        ParseIffWrites(s, t);
      }
    }
  }

  lemma {:induction false} PrintIsWritten(t: Ty)
    ensures Writes(Print(t), t) && OneLine(Print(t))
  {
    match t {
      case Base(p) =>
        NamesAreLetters(PrimKind(p));
      case Of(g, u) =>
        NamesAreLetters(GenKind(g));
        PrintIsWritten(u);
    }
    assert WritesCore(Print(t), t);
    assert Print(t) == "" + Print(t) + "";
  }

  /** Printing a type and reading it back gives the type. */
  lemma PrintThenParse(t: Ty)
    ensures ParseType(Print(t)) == Some(t) && IsValidType(Print(t))
  {
    PrintIsWritten(t);
    ParseIffWrites(Print(t), t);
    ValidIffInGrammar(Print(t));
  }
}
