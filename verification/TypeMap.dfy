/** The translation of signature types to the eight languages a problem can be solved in. */
module TypeMap {
  import opened Options
  import opened Text
  import opened TypeGrammar

  datatype Language = Cpp | Java | CSharp | Go | TypeScript | C | Kotlin | Rust

  // -- the tables ---------------------------------------------------------------------------------------

  function PrimEntry(lang: Language, p: Prim): string {
    match (lang, p)
    case (Cpp, Number) => "int"
    case (Cpp, Str) => "string"
    case (Cpp, Boolean) => "bool"
    case (Cpp, Void) => "void"
    case (Java, Number) => "int"
    case (Java, Str) => "String"
    case (Java, Boolean) => "boolean"
    case (Java, Void) => "void"
    case (CSharp, Number) => "int"
    case (CSharp, Str) => "string"
    case (CSharp, Boolean) => "bool"
    case (CSharp, Void) => "void"
    case (Go, Number) => "int"
    case (Go, Str) => "string"
    case (Go, Boolean) => "bool"
    case (Go, Void) => ""
    case (TypeScript, Number) => "number"
    case (TypeScript, Str) => "string"
    case (TypeScript, Boolean) => "boolean"
    case (TypeScript, Void) => "void"
    case (C, Number) => "int"
    case (C, Str) => "const char*"
    case (C, Boolean) => "bool"
    case (C, Void) => "void"
    case (Kotlin, Number) => "Int"
    case (Kotlin, Str) => "String"
    case (Kotlin, Boolean) => "Boolean"
    case (Kotlin, Void) => "Unit"
    case (Rust, Number) => "i32"
    case (Rust, Str) => "String"
    case (Rust, Boolean) => "bool"
    case (Rust, Void) => "()"
  }

  function ArrayEntry(lang: Language, elem: string): string {
    match lang
    case Cpp => "vector<" + elem + ">"
    case Java => elem + "[]"
    case CSharp => elem + "[]"
    case Go => "[]" + elem
    case TypeScript => elem + "[]"
    case C => elem + "*"
    case Kotlin => "Array<" + elem + ">"
    case Rust => "Vec<" + elem + ">"
  }

  function MatrixEntry(lang: Language, elem: string): string {
    match lang
    case Cpp => "vector<vector<" + elem + ">>"
    case Java => elem + "[][]"
    case CSharp => elem + "[][]"
    case Go => "[][]" + elem
    case TypeScript => elem + "[][]"
    case C => elem + "**"
    case Kotlin => "Array<Array<" + elem + ">>"
    case Rust => "Vec<Vec<" + elem + ">>"
  }

  // The kinds whose translation does not look at the type in angle brackets.
  datatype Node = TreeNode | ListNode | GraphNode

  function NodeEntry(lang: Language, n: Node): string {
    match (lang, n)
    case (Cpp, TreeNode) => "TreeNode*"
    case (Cpp, ListNode) => "ListNode*"
    case (Cpp, GraphNode) => "Node*"
    case (Java, TreeNode) => "TreeNode"
    case (Java, ListNode) => "ListNode"
    case (Java, GraphNode) => "Node"
    case (CSharp, TreeNode) => "TreeNode"
    case (CSharp, ListNode) => "ListNode"
    case (CSharp, GraphNode) => "Node"
    case (Go, TreeNode) => "*TreeNode"
    case (Go, ListNode) => "*ListNode"
    case (Go, GraphNode) => "*Node"
    case (TypeScript, TreeNode) => "TreeNode | null"
    case (TypeScript, ListNode) => "ListNode | null"
    case (TypeScript, GraphNode) => "Node | null"
    case (C, TreeNode) => "struct TreeNode*"
    case (C, ListNode) => "struct ListNode*"
    case (C, GraphNode) => "struct Node*"
    case (Kotlin, TreeNode) => "TreeNode?"
    case (Kotlin, ListNode) => "ListNode?"
    case (Kotlin, GraphNode) => "Node?"
    case (Rust, TreeNode) => "Option<Rc<RefCell<TreeNode>>>"
    case (Rust, ListNode) => "Option<Box<ListNode>>"
    case (Rust, GraphNode) => "Option<Rc<RefCell<Node>>>"
  }

  /** What the tables lack, or hold an empty text for. */
  function Fallback(lang: Language): string {
    if lang == Cpp then "auto" else "Object"
  }

  function PrimText(lang: Language, p: Prim): string {
    if PrimEntry(lang, p) == "" then Fallback(lang) else PrimEntry(lang, p)
  }

  // The table entry of a kind, given the translation of the type in angle brackets.
  function Entry(lang: Language, kind: Kind, elem: string): string {
    match kind
    case PrimKind(p) => PrimText(lang, p)
    case GenKind(Array) => ArrayEntry(lang, elem)
    case GenKind(Matrix) => MatrixEntry(lang, elem)
    case GenKind(Tree) => NodeEntry(lang, TreeNode)
    case GenKind(LinkedList) => NodeEntry(lang, ListNode)
    case GenKind(Graph) => NodeEntry(lang, GraphNode)
  }

  // -- the translation ----------------------------------------------------------------------------------

  function MapType(lang: Language, typeStr: string): string
    decreases |typeStr|
  {
    if typeStr == "" then "void" else
    var m := Match(Trim(typeStr, IsWhite));
    if m.None? then Fallback(lang) else
    var kind := KindNamed(m.value.kind);
    if kind.None? then Fallback(lang) else
    // Angle brackets that are missing are translated as a missing type.
    Entry(lang, kind.value, if m.value.inner.None? then "void" else MapType(lang, m.value.inner.value))
  }

  // -- what it means ------------------------------------------------------------------------------------

  datatype Leaf = PrimLeaf(prim: Prim) | NodeLeaf(node: Node)

  /** All that a translation keeps of a type: the innermost kind it looks at, and how many lists it is in. */
  datatype Shape = Shape(depth: nat, leaf: Leaf)

  function ShapeOf(t: Ty): Shape {
    match t
    case Base(p) => Shape(0, PrimLeaf(p))
    case Of(Array, u) => Shape(ShapeOf(u).depth + 1, ShapeOf(u).leaf)
    case Of(Matrix, u) => Shape(ShapeOf(u).depth + 2, ShapeOf(u).leaf)
    case Of(Tree, _) => Shape(0, NodeLeaf(TreeNode))
    case Of(LinkedList, _) => Shape(0, NodeLeaf(ListNode))
    case Of(Graph, _) => Shape(0, NodeLeaf(GraphNode))
  }

  function LeafText(lang: Language, leaf: Leaf): string {
    match leaf
    case PrimLeaf(p) => PrimText(lang, p)
    case NodeLeaf(n) => NodeEntry(lang, n)
  }

  function Nested(lang: Language, depth: nat, leaf: Leaf): string {
    if depth == 0 then LeafText(lang, leaf) else ArrayEntry(lang, Nested(lang, depth - 1, leaf))
  }

  lemma MatrixEntryIsTwoArrays(lang: Language, elem: string)
    ensures MatrixEntry(lang, elem) == ArrayEntry(lang, ArrayEntry(lang, elem))
  {
    match lang
    case Cpp => assert "vector<vector<" + elem + ">>" == "vector<" + ("vector<" + elem + ">") + ">";
    case Java | CSharp | TypeScript => assert elem + "[][]" == (elem + "[]") + "[]";
    case Go => assert "[][]" + elem == "[]" + ("[]" + elem);
    case C => assert elem + "**" == (elem + "*") + "*";
    case Kotlin => assert "Array<Array<" + elem + ">>" == "Array<" + ("Array<" + elem + ">") + ">";
    case Rust => assert "Vec<Vec<" + elem + ">>" == "Vec<" + ("Vec<" + elem + ">") + ">";
  }

  function KindOf(t: Ty): Kind {
    match t
    case Base(p) => PrimKind(p)
    case Of(g, _) => GenKind(g)
  }

  lemma MatrixHasShape(lang: Language, depth: nat, leaf: Leaf)
    ensures MatrixEntry(lang, Nested(lang, depth, leaf)) == Nested(lang, depth + 2, leaf)
  {
    MatrixEntryIsTwoArrays(lang, Nested(lang, depth, leaf));
    assert Nested(lang, depth + 1, leaf) == ArrayEntry(lang, Nested(lang, depth, leaf));
  }

  lemma EntryHasShape(lang: Language, t: Ty, elem: string)
    requires t.Of? ==> elem == Nested(lang, ShapeOf(t.inner).depth, ShapeOf(t.inner).leaf)
    ensures Entry(lang, KindOf(t), elem) == Nested(lang, ShapeOf(t).depth, ShapeOf(t).leaf)
  {
    match t
    case Base(_) =>
    case Of(Array, _) =>
    case Of(Matrix, u) =>
      MatrixHasShape(lang, ShapeOf(u).depth, ShapeOf(u).leaf);
    case Of(Tree, _) =>
    case Of(LinkedList, _) =>
    case Of(Graph, _) =>
  }

  lemma {:induction false} ParsedTranslation(lang: Language, s: string, t: Ty)
    requires ParseType(s) == Some(t)
    ensures MapType(lang, s) == Nested(lang, ShapeOf(t).depth, ShapeOf(t).leaf)
    decreases |s|
  {
    var m := Match(Trim(s, IsWhite));
    assert KindNamed(m.value.kind) == Some(KindOf(t));
    var elem := if m.value.inner.None? then "void" else MapType(lang, m.value.inner.value);
    if t.Of? {
      ParsedTranslation(lang, m.value.inner.value, t.inner);
    }
    EntryHasShape(lang, t, elem);
  }

  /** However a type is written, its translation is its leaf's text in as many lists as the type has. */
  lemma TranslationHasShape(lang: Language, s: string, t: Ty)
    requires Writes(s, t)
    ensures MapType(lang, s) == Nested(lang, ShapeOf(t).depth, ShapeOf(t).leaf)
  {
    ParseIffWrites(s, t);
    ParsedTranslation(lang, s, t);
  }

  // -- what it spells -----------------------------------------------------------------------------------

  /** The languages side by side: what each calls a number, a text, a truth value and nothing. */
  lemma PrimsAcross(lang: Language)
    ensures LeafText(lang, PrimLeaf(Number)) ==
            (if lang == TypeScript then "number" else if lang == Kotlin then "Int" else if lang == Rust then "i32" else "int")
    ensures LeafText(lang, PrimLeaf(Str)) ==
            (if lang == C then "const char*"
             else if lang == Java || lang == Kotlin || lang == Rust then "String" else "string")
    ensures LeafText(lang, PrimLeaf(Boolean)) ==
            (if lang == Java || lang == TypeScript then "boolean" else if lang == Kotlin then "Boolean" else "bool")
    ensures LeafText(lang, PrimLeaf(Void)) ==
            (if lang == Go then "Object" else if lang == Kotlin then "Unit" else if lang == Rust then "()" else "void")
  {
  }

  function NodeName(n: Node): string {
    match n
    case TreeNode => "TreeNode"
    case ListNode => "ListNode"
    case GraphNode => "Node"
  }

  // What a language puts before and after a node's name.
  function Around(lang: Language, n: Node): (string, string) {
    match lang
    case Cpp => ("", "*")
    case Java => ("", "")
    case CSharp => ("", "")
    case Go => ("*", "")
    case TypeScript => ("", " | null")
    case C => ("struct ", "*")
    case Kotlin => ("", "?")
    case Rust => if n == ListNode then ("Option<Box<", ">>") else ("Option<Rc<RefCell<", ">>>")
  }

  /** A tree, a linked list or a graph is its node's name in the language's own way of referring to it. */
  lemma NodesAcross(lang: Language, n: Node)
    ensures LeafText(lang, NodeLeaf(n)) == Around(lang, n).0 + NodeName(n) + Around(lang, n).1
  {
    match n
    case TreeNode => TreeAcross(lang);
    case ListNode => ListAcross(lang);
    case GraphNode => GraphAcross(lang);
  }

  lemma TreeAcross(lang: Language)
    ensures NodeEntry(lang, TreeNode) == Around(lang, TreeNode).0 + "TreeNode" + Around(lang, TreeNode).1
  {
  }

  lemma ListAcross(lang: Language)
    ensures NodeEntry(lang, ListNode) == Around(lang, ListNode).0 + "ListNode" + Around(lang, ListNode).1
  {
  }

  lemma GraphAcross(lang: Language)
    ensures NodeEntry(lang, GraphNode) == Around(lang, GraphNode).0 + "Node" + Around(lang, GraphNode).1
  {
  }

  /** A list of `e` is written around it, before it or after it. */
  lemma ListsAcross(lang: Language, e: string)
    ensures ArrayEntry(lang, e) ==
      match lang
      case Cpp => "vector<" + e + ">"
      case Kotlin => "Array<" + e + ">"
      case Rust => "Vec<" + e + ">"
      case Go => "[]" + e
      case C => e + "*"
      case _ => e + "[]"
  {
  }

  // -- what it keeps ------------------------------------------------------------------------------------

  // A character that tells a language's leaves apart.
  function Mark(lang: Language, s: string): char
    requires s != "" && (lang == Go && s[0] == '*' ==> |s| > 1)
    requires (lang == C && s[0] == 's' ==> |s| > 7) && (lang == Rust && s[0] == 'O' ==> |s| > 18)
  {
    match lang
    case Go => if s[0] == '*' then s[1] else s[0]
    case C => if s[0] == 's' then s[7] else s[0]
    case Rust => if s[0] == 'O' then (if s[7] == 'B' then 'L' else s[18]) else s[0]
    case _ => s[0]
  }

  function LeafMarked(c: char): Leaf {
    if c == 'T' then NodeLeaf(TreeNode)
    else if c == 'L' then NodeLeaf(ListNode)
    else if c == 'N' then NodeLeaf(GraphNode)
    else if c == 'b' || c == 'B' then PrimLeaf(Boolean)
    else if c == 's' || c == 'S' || c == 'c' then PrimLeaf(Str)
    else if c == 'i' || c == 'I' || c == 'n' then PrimLeaf(Number)
    else PrimLeaf(Void)
  }

  ghost predicate IsMarked(lang: Language, s: string, leaf: Leaf) {
    && s != ""
    && (lang == Go && s[0] == '*' ==> |s| > 1)
    && (lang == C && s[0] == 's' ==> |s| > 7)
    && (lang == Rust && s[0] == 'O' ==> |s| > 18)
    && LeafMarked(Mark(lang, s)) == leaf
  }

  lemma PrimHasMark(lang: Language, p: Prim)
    ensures IsMarked(lang, PrimText(lang, p), PrimLeaf(p))
  {
    match lang
    case Cpp | Java | CSharp =>
    case Go =>
    case TypeScript | C =>
    case Kotlin | Rust =>
  }

  lemma NodeHasMark(lang: Language, n: Node)
    ensures IsMarked(lang, NodeEntry(lang, n), NodeLeaf(n))
  {
    match lang
    case Cpp | Java | CSharp =>
    case Go =>
    case TypeScript | C =>
    case Kotlin | Rust =>
  }

  lemma LeafHasMark(lang: Language, leaf: Leaf)
    ensures IsMarked(lang, LeafText(lang, leaf), leaf)
  {
    match leaf
    case PrimLeaf(p) => PrimHasMark(lang, p);
    case NodeLeaf(n) => NodeHasMark(lang, n);
  }

  lemma LeavesDiffer(lang: Language, a: Leaf, b: Leaf)
    requires LeafText(lang, a) == LeafText(lang, b)
    ensures a == b
  {
    LeafHasMark(lang, a);
    LeafHasMark(lang, b);
  }

  // What sets a language's lists apart from its leaves. In C both may end in a star, so the character
  // before it is looked at.
  predicate LooksLikeList(lang: Language, s: string) {
    |s| > 1 &&
    match lang
    case Cpp => s[1] == 'e'
    case Java | CSharp | TypeScript => s[|s| - 1] == ']'
    case Go => s[0] == '['
    case C => s[|s| - 1] == '*' && s[|s| - 2] != 'r' && s[|s| - 2] != 'e'
    case Kotlin => s[0] == 'A'
    case Rust => s[0] == 'V'
  }

  lemma PrimIsNoList(lang: Language, p: Prim)
    ensures !LooksLikeList(lang, PrimText(lang, p))
  {
  }

  lemma NodeIsNoList(lang: Language, n: Node)
    ensures !LooksLikeList(lang, NodeEntry(lang, n))
  {
  }

  lemma LeafEnds(lang: Language, leaf: Leaf)
    requires lang == C
    ensures var s := LeafText(lang, leaf); s != "" && s[|s| - 1] != 'r' && s[|s| - 1] != 'e'
  {
  }

  lemma ListLooksLikeList(lang: Language, depth: nat, leaf: Leaf)
    requires 0 < depth
    ensures LooksLikeList(lang, Nested(lang, depth, leaf))
  {
    var x := Nested(lang, depth - 1, leaf);
    var s := ArrayEntry(lang, x);
    if lang == C {
      if depth == 1 {
        LeafEnds(lang, leaf);
      }
      assert x != "" && s[|s| - 2] == x[|x| - 1];
    }
  }

  lemma ListIsNoLeaf(lang: Language, leaf: Leaf, depth: nat, other: Leaf)
    requires 0 < depth
    ensures LeafText(lang, leaf) != Nested(lang, depth, other)
  {
    ListLooksLikeList(lang, depth, other);
    match leaf
    case PrimLeaf(p) => PrimIsNoList(lang, p);
    case NodeLeaf(n) => NodeIsNoList(lang, n);
  }

  lemma {:induction false} NestedKeepsShape(lang: Language, s: Shape, t: Shape)
    requires Nested(lang, s.depth, s.leaf) == Nested(lang, t.depth, t.leaf)
    ensures s == t
    decreases s.depth
  {
    if s.depth == 0 && t.depth == 0 {
      LeavesDiffer(lang, s.leaf, t.leaf);
    } else if s.depth == 0 {
      ListIsNoLeaf(lang, s.leaf, t.depth, t.leaf);
      assert false;
    } else if t.depth == 0 {
      ListIsNoLeaf(lang, t.leaf, s.depth, s.leaf);
      assert false;
    } else {
      var x, y := Nested(lang, s.depth - 1, s.leaf), Nested(lang, t.depth - 1, t.leaf);
      ArrayEntryKeepsElement(lang, x, y);
      NestedKeepsShape(lang, Shape(s.depth - 1, s.leaf), Shape(t.depth - 1, t.leaf));
    }
  }

  lemma ArrayEntryKeepsElement(lang: Language, x: string, y: string)
    requires ArrayEntry(lang, x) == ArrayEntry(lang, y)
    ensures x == y
  {
    var a, b := ArrayEntry(lang, x), ArrayEntry(lang, y);
    match lang
    case Cpp => assert x == a[7..|a| - 1] && y == b[7..|b| - 1];
    case Java | CSharp | TypeScript => assert x == a[..|a| - 2] && y == b[..|b| - 2];
    case Go => assert x == a[2..] && y == b[2..];
    case C => assert x == a[..|a| - 1] && y == b[..|b| - 1];
    case Kotlin => assert x == a[6..|a| - 1] && y == b[6..|b| - 1];
    case Rust => assert x == a[4..|a| - 1] && y == b[4..|b| - 1];
  }

  /** In every language two types have one translation exactly when they have one shape: a matrix is a
      list of lists, and what a tree, a linked list or a graph holds is lost, but nothing else is. */
  lemma TranslationsAgreeIff(lang: Language, s: string, t: Ty, s': string, t': Ty)
    requires Writes(s, t) && Writes(s', t')
    ensures MapType(lang, s) == MapType(lang, s') <==> ShapeOf(t) == ShapeOf(t')
  {
    TranslationHasShape(lang, s, t);
    TranslationHasShape(lang, s', t');
    if MapType(lang, s) == MapType(lang, s') {
      NestedKeepsShape(lang, ShapeOf(t), ShapeOf(t'));
    }
  }

  lemma WrappedMatches(name: string, x: string)
    requires name != "" && Letters(name)
    ensures Match(Trim(name + "<" + x + ">", IsWhite))
         == if x != "" && OneLine(x) then Some(Capture(name, Some(x))) else None
  {
    var s := name + "<" + x + ">";
    assert s[0] == name[0] && s[|s| - 1] == '>';
    TrimRemoves("", s, "", IsWhite);
    assert "" + s + "" == s;
    var n := |name|;
    assert s[..n] == name && s[n] == '<' && s[n + 1..|s| - 1] == x;
    LettersLead(s, n);
  }

  function Wrap(g: Gen, x: string): string {
    GenName(g) + "<" + x + ">"
  }

  lemma MapWrapped(lang: Language, g: Gen, x: string)
    ensures MapType(lang, Wrap(g, x))
         == if x != "" && OneLine(x) then Entry(lang, GenKind(g), MapType(lang, x)) else Fallback(lang)
  {
    NamesAreLetters(GenKind(g));
    NamesAreKnown(GenKind(g));
    WrappedMatches(GenName(g), x);
  }

  lemma WrapIsOneLine(g: Gen, x: string)
    ensures OneLine(Wrap(g, x)) <==> OneLine(x)
  {
    var n := |GenName(g)|;
    NamesAreLetters(GenKind(g));
    assert forall i | 0 <= i < |x| :: Wrap(g, x)[n + 1 + i] == x[i];
  }

  /** On every text between the angle brackets, even one that is no type, a matrix is translated as an
      array of arrays, unless that text is empty: then the first is the fallback and the second is not. */
  lemma MatrixIsArrayOfArraysIff(lang: Language, x: string)
    ensures MapType(lang, Wrap(Matrix, x)) == MapType(lang, Wrap(Array, Wrap(Array, x))) <==> x != ""
  {
    MapWrapped(lang, Matrix, x);
    MapWrapped(lang, Array, x);
    MapWrapped(lang, Array, Wrap(Array, x));
    WrapIsOneLine(Array, x);
    MatrixEntryIsTwoArrays(lang, MapType(lang, x));
    assert |ArrayEntry(lang, Fallback(lang))| > |Fallback(lang)|;
  }

  /** Outside the grammar: an empty text is nothing, a text that does not match, or of no known kind, falls back,
      and a list of no type is a list of nothing. */
  lemma OutsideTheGrammar(lang: Language, s: string)
    ensures MapType(lang, "") == "void"
    ensures var m := Match(Trim(s, IsWhite));
      s != "" && (m.None? || KindNamed(m.value.kind).None?) ==>
      MapType(lang, s) == if lang == Cpp then "auto" else "Object"
  {
  }

  lemma ListOfNothing(lang: Language, g: Gen)
    ensures MapType(lang, GenName(g)) == Entry(lang, GenKind(g), "void")
  {
    var s := GenName(g);
    NamesAreLetters(GenKind(g));
    NamesAreKnown(GenKind(g));
    TrimRemoves("", s, "", IsWhite);
    assert "" + s + "" == s;
    FittingMatches(s, Capture(s, None));
  }
}
