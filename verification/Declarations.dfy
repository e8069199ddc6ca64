/** Which nodes of a file are declared, as what, and under which names: said of their place in the tree alone. */
module Declarations {
  import opened Collections
  import opened Names

  // --------------------------------------------------------------- fields of a node

  ghost predicate Fills(n: Node, f: Field, k: nat) {
    k < |n.children| && n.children[k].field == f && forall j :: 0 <= j < k ==> n.children[j].field != f
  }

  ghost predicate Lacks(n: Node, f: Field) { forall k :: 0 <= k < |n.children| ==> n.children[k].field != f }

  lemma {:induction false} FieldFromExactly(children: seq<Node>, f: Field)
    ensures var r := FieldChildFrom(children, f);
            && (r.None? <==> forall k :: 0 <= k < |children| ==> children[k].field != f)
            && (r.Some? ==> r.value < |children| && children[r.value].field == f
                            && forall j :: 0 <= j < r.value ==> children[j].field != f)
    decreases children
  {
    if children != [] {
      FieldFromExactly(children[1..], f);
      assert forall k :: 1 <= k < |children| ==> children[k] == children[1..][k - 1];
    }
  }

  /** The first child that fills the field, and the text of the one that fills the name. */
  lemma FieldsExactly(n: Node, f: Field)
    ensures FieldChild(n, f).None? <==> Lacks(n, f)
    ensures FieldChild(n, f).Some? ==> Fills(n, f, FieldChild(n, f).value)
    ensures NameOf(n).None? <==> Lacks(n, NameField)
    ensures NameOf(n).Some? ==> exists k: nat :: Fills(n, NameField, k) && NameOf(n).value == n.children[k].text
  {
    FieldFromExactly(n.children, f);
    FieldFromExactly(n.children, NameField);
  }

  /** Names are joined by dots. */
  lemma {:induction false} DottedExactly(parts: seq<string>, name: string)
    ensures Dotted([]) == "" && Dotted([name]) == name
    ensures parts != [] ==> Dotted(parts + [name]) == Dotted(parts) + "." + name
  {
    if |parts| == 1 {
      assert (parts + [name])[1..] == [name];
    } else if |parts| > 1 {
      DottedExactly(parts[1..], name);
      assert (parts + [name])[1..] == parts[1..] + [name];
    }
  }

  // ------------------------------------------------------------ where the walk goes

  /** What a node stands for, and where it is below the node: in Python a decorated definition is the definition. */
  datatype Stand = Stand(prefix: Position, node: Node)

  ghost function Stands(lang: Language, c: Node): Option<Stand> {
    if lang == JavaScript || c.ntype != DecoratedNode then Some(Stand([], c))
    else
      match FieldChild(c, DefinitionField)
      case None => None
      case Some(j) => Some(Stand([j], c.children[j]))
  }

  /** Nothing below a declared function, type or module variable is looked at. */
  ghost predicate Closed(lang: Language, t: NodeType, scope: seq<string>) {
    match lang
    case JavaScript => t in {MethodNode, FunctionNode, InterfaceNode, TypeAliasNode}
      || (t == VariableNode && scope == [])
    case Python => t == FunctionNode || (t == ExpressionStatement && scope == [])
  }

  /** What is walked below a visited node: the children of `node`, which is at `prefix` below it, in this scope. */
  datatype Inner = Inner(prefix: Position, node: Node, scope: seq<string>)

  /** Below a named class, its body, with its name in the scope; below most other nodes, their children as they are. */
  ghost function Opens(lang: Language, c: Node, scope: seq<string>): Option<Inner> {
    match Stands(lang, c)
    case None => None
    case Some(t) =>
      if t.node.ntype == ClassNode then
        match FieldChild(t.node, BodyField)
        case None => None
        case Some(b) =>
          if NameOf(t.node).None? then None
          else Some(Inner(t.prefix + [b], t.node.children[b], scope + [NameOf(t.node).value]))
      else if Closed(lang, t.node.ntype, scope) then None
      else Some(Inner([], c, scope))
  }

  /** The scope in which the node at `path` below a visited node is visited, if it is. */
  ghost function ScopeAt(lang: Language, c: Node, path: Position, scope: seq<string>): Option<seq<string>>
    decreases |path|
  {
    if path == [] then Some(scope)
    else
      match Opens(lang, c, scope)
      case None => None
      case Some(inner) =>
        var n := |inner.prefix|;
        if n < |path| && path[..n] == inner.prefix && path[n] < |inner.node.children|
        then ScopeAt(lang, inner.node.children[path[n]], path[n + 1..], inner.scope) else None
  }

  /** The same below a node whose children are walked. */
  ghost function ScopeBelow(lang: Language, n: Node, at: Position, scope: seq<string>): Option<seq<string>> {
    if at != [] && at[0] < |n.children| then ScopeAt(lang, n.children[at[0]], at[1..], scope) else None
  }

  lemma InnerValid(lang: Language, c: Node, scope: seq<string>)
    requires Opens(lang, c, scope).Some?
    ensures var inner := Opens(lang, c, scope).value; ValidAt(c, inner.prefix) && At(c, inner.prefix) == inner.node
  {
    var inner, t := Opens(lang, c, scope).value, Stands(lang, c).value;
    StandValid(lang, c);
    if inner.prefix != [] {
      var b := FieldChild(t.node, BodyField).value;
      OneBelow(t.node, b);
      ValidJoins(c, t.prefix, [b]);
    }
  }

  lemma OneBelow(n: Node, k: nat)
    requires k < |n.children|
    ensures ValidAt(n, [k]) && At(n, [k]) == n.children[k]
  {
    assert [k][1..] == [];
  }

  lemma StandValid(lang: Language, c: Node)
    requires Stands(lang, c).Some?
    ensures var t := Stands(lang, c).value; ValidAt(c, t.prefix) && At(c, t.prefix) == t.node
  {
    if Stands(lang, c).value.prefix != [] { OneBelow(c, FieldChild(c, DefinitionField).value); }
  }

  lemma {:induction false} ValidJoins(c: Node, a: Position, b: Position)
    requires ValidAt(c, a)
    ensures ValidAt(c, a + b) <==> ValidAt(At(c, a), b)
    ensures ValidAt(c, a + b) ==> At(c, a + b) == At(At(c, a), b)
    decreases |a|
  {
    if a == [] {
      assert a + b == b;
    } else {
      assert (a + b)[1..] == a[1..] + b;
      ValidJoins(c.children[a[0]], a[1..], b);
    }
  }

  // ------------------------------------------------------------------ what is declared

  /** What a node declares itself, at `rel` below it. */
  ghost predicate Makes(lang: Language, c: Node, scope: seq<string>, rel: Position, kind: Kind, name: string) {
    match Stands(lang, c)
    case None => false
    case Some(t) =>
      || (rel == t.prefix && NameOf(t.node) == Some(name) && KindOf(lang, t.node.ntype, scope) == Some(kind))
      || (scope == [] && lang == JavaScript && t.node.ntype == VariableNode
          && exists k: nat :: k < |t.node.children| && rel == [k] && IsVariable(t.node.children[k], kind, name))
      || (scope == [] && lang == Python && t.node.ntype == ExpressionStatement && rel == t.prefix + [0]
          && |t.node.children| == 1 && IsAssignment(t.node.children[0], name) && kind == Variable)
  }

  ghost function KindOf(lang: Language, t: NodeType, scope: seq<string>): Option<Kind> {
    match t
    case ClassNode => Some(Class)
    case FunctionNode => if lang == Python && scope != [] then Some(Method) else Some(Function)
    case MethodNode => if lang == JavaScript then Some(Method) else None
    case InterfaceNode => if lang == JavaScript then Some(Interface) else None
    case TypeAliasNode => if lang == JavaScript then Some(TypeAlias) else None
    case _ => None
  }

  /** A declarator with an identifier for its name; one that holds a function counts as a function. */
  ghost predicate IsVariable(d: Node, kind: Kind, name: string) {
    && d.ntype == Declarator
    && (exists k: nat :: Fills(d, NameField, k) && d.children[k].ntype == Identifier && d.children[k].text == name)
    && (kind == Function <==> exists k: nat :: Fills(d, ValueField, k) && d.children[k].ntype == FunctionValue)
    && (kind == Function || kind == Variable)
  }

  ghost predicate IsAssignment(a: Node, name: string) {
    && a.ntype == Assignment
    && exists k: nat :: Fills(a, LeftField, k) && a.children[k].ntype == Identifier && a.children[k].text == name
  }

  /** The walk cannot go on: a Python class or function, or an interface or type alias, has no name. */
  ghost predicate Raises(lang: Language, c: Node) {
    match Stands(lang, c)
    case None => false
    case Some(t) =>
      NameOf(t.node).None? && if lang == Python then t.node.ntype in {ClassNode, FunctionNode}
                              else t.node.ntype in {InterfaceNode, TypeAliasNode}
  }

  // --------------------------------------------------------------- one visited node

  ghost predicate Own(lang: Language, c: Node, at: Position, scope: seq<string>, d: Declaration) {
    exists rel :: Makes(lang, c, scope, rel, d.kind, d.name) && d.at == at + rel
        && d.qualified == Dotted(scope + [d.name])
  }

  /** A visit gives what the node declares itself and then what is walked below it, or raises with either. */
  ghost predicate Splits(
    lang: Language, c: Node, at: Position, scope: seq<string>, own: seq<Declaration>, r: Option<seq<Declaration>>)
  {
    && InOrder(own) && (forall d :: d in own <==> Own(lang, c, at, scope, d))
    && match Opens(lang, c, scope)
       case None => r == Some(own)
       case Some(inner) =>
         var below := Walk(lang, inner.node, 0, at + inner.prefix, inner.scope);
         r == if below.None? then None else Some(own + below.value)
  }

  /** The order of the text: what contains comes before what is contained, and what is left before what is right. */
  ghost predicate Ahead(a: Position, b: Position) {
    exists k: nat :: k <= |a| && k < |b| && a[..k] == b[..k] && (k == |a| || a[k] < b[k])
  }

  ghost predicate InOrder(s: seq<Declaration>) { forall i, j :: 0 <= i < j < |s| ==> Ahead(s[i].at, s[j].at) }

  lemma OneOwn(lang: Language, c: Node, at: Position, scope: seq<string>, t: Stand, kind: Kind, d: Declaration)
    requires Stands(lang, c) == Some(t) && NameOf(t.node).Some? && KindOf(lang, t.node.ntype, scope) == Some(kind)
    ensures Own(lang, c, at, scope, d) <==> d == Declare(at + t.prefix, kind, scope, NameOf(t.node).value)
  {
    if d == Declare(at + t.prefix, kind, scope, NameOf(t.node).value) {
      assert Makes(lang, c, scope, t.prefix, d.kind, d.name);
    }
  }

  lemma NothingOwn(lang: Language, c: Node, at: Position, scope: seq<string>, d: Declaration)
    requires match Stands(lang, c)
             case None => true
             case Some(t) =>
               && (KindOf(lang, t.node.ntype, scope).None? || NameOf(t.node).None?)
               && !(scope == [] && t.node.ntype == if lang == JavaScript then VariableNode else ExpressionStatement)
    ensures !Own(lang, c, at, scope, d)
  {
  }

  lemma PythonSplits(c: Node, at: Position, scope: seq<string>) returns (own: seq<Declaration>)
    requires !Raises(Python, c)
    ensures Splits(Python, c, at, scope, own, Visit(Python, c, at, scope))
  {
    own := [];
    if Stands(Python, c).None? {
      forall d ensures !Own(Python, c, at, scope, d) { NothingOwn(Python, c, at, scope, d); }
    } else {
      var t := Stands(Python, c).value;
      var inner := if t.prefix == [] then None else Some(t.prefix[0]);
      assert Visit(Python, c, at, scope) == VisitPython(c, inner, at, scope);
      assert TargetOf(c, inner) == t.node && TargetAt(at, inner) == at + t.prefix;
      own := PythonSplit(c, t, inner, at, scope);
    }
  }

  lemma PythonSplit(c: Node, t: Stand, inner: Option<nat>, at: Position, scope: seq<string>)
      returns (own: seq<Declaration>)
    requires Stands(Python, c) == Some(t) && !Raises(Python, c)
    requires (inner.Some? ==> inner.value < |c.children|) && TargetOf(c, inner) == t.node
        && TargetAt(at, inner) == at + t.prefix
    ensures Splits(Python, c, at, scope, own, VisitPython(c, inner, at, scope))
  {
    own := [];
    if t.node.ntype == ClassNode {
      own := ClassSplit(Python, c, t, at, scope);
    } else if t.node.ntype == FunctionNode {
      var kind := if scope != [] then Method else Function;
      own := [Declare(at + t.prefix, kind, scope, NameOf(t.node).value)];
      forall d ensures Own(Python, c, at, scope, d) <==> d in own { OneOwn(Python, c, at, scope, t, kind, d); }
    } else if scope == [] && t.node.ntype == ExpressionStatement {
      own := PythonVariable(t.node, at + t.prefix);
      forall d ensures Own(Python, c, at, scope, d) <==> d in own { VariableOwn(c, t, at, d); }
    } else {
      forall d ensures !Own(Python, c, at, scope, d) { NothingOwn(Python, c, at, scope, d); }
      TransparentSplit(Python, c, at, scope);
    }
  }

  /** A node that declares nothing and does not close is walked as it is. */
  lemma TransparentSplit(lang: Language, c: Node, at: Position, scope: seq<string>)
    requires Opens(lang, c, scope) == Some(Inner([], c, scope)) && forall d :: !Own(lang, c, at, scope, d)
    ensures Splits(lang, c, at, scope, [], Walk(lang, c, 0, at, scope))
  {
    assert at + [] == at;
    var below := Walk(lang, c, 0, at, scope);
    if below.Some? { assert [] + below.value == below.value; }
  }

  /** A named class declares itself, and its body is walked with its name in the scope. */
  lemma ClassSplit(lang: Language, c: Node, t: Stand, at: Position, scope: seq<string>) returns (own: seq<Declaration>)
    requires Stands(lang, c) == Some(t) && t.node.ntype == ClassNode && NameOf(t.node).Some?
    ensures Splits(lang, c, at, scope, own, DeclareClass(lang, t.node, at + t.prefix, scope, NameOf(t.node).value))
  {
    own := [Declare(at + t.prefix, Class, scope, NameOf(t.node).value)];
    forall d ensures Own(lang, c, at, scope, d) <==> d in own { OneOwn(lang, c, at, scope, t, Class, d); }
    if FieldChild(t.node, BodyField).Some? {
      AppendAssociates(at, t.prefix, [FieldChild(t.node, BodyField).value]);
    }
  }

  lemma VariableOwn(c: Node, t: Stand, at: Position, d: Declaration)
    requires Stands(Python, c) == Some(t) && t.node.ntype == ExpressionStatement
    ensures Own(Python, c, at, [], d) <==> d in PythonVariable(t.node, at + t.prefix)
  {
    AppendAssociates(at, t.prefix, [0]);
    assert Dotted([] + [d.name]) == d.name;
    if |t.node.children| == 1 {
      FieldsExactly(t.node.children[0], LeftField);
      if d in PythonVariable(t.node, at + t.prefix) {
        assert Makes(Python, c, [], t.prefix + [0], d.kind, d.name);
      }
    }
  }

  /** The k-th declarator declares `d`. */
  ghost predicate Declares(n: Node, k: nat, at: Position, d: Declaration) {
    k < |n.children| && d.at == at + [k] && IsVariable(n.children[k], d.kind, d.name)
        && d.qualified == Dotted([] + [d.name])
  }

  lemma DeclaratorExactly(n: Node, k: nat, at: Position, d: Declaration)
    requires k < |n.children|
    ensures d in Declarator1(n.children[k], at + [k]) <==> Declares(n, k, at, d)
  {
    FieldsExactly(n.children[k], NameField);
    FieldsExactly(n.children[k], ValueField);
    assert [] + [d.name] == [d.name];
  }

  lemma EitherPart<T>(a: seq<T>, b: seq<T>, x: T)
    ensures x in a + b <==> x in a || x in b
  {
  }

  lemma {:induction false} DeclaratorOf(n: Node, k: nat, at: Position, d: Declaration) returns (j: nat)
    requires k <= |n.children| && d in Declarators(n, k, at)
    ensures k <= j < |n.children| && d in Declarator1(n.children[j], at + [j])
    decreases |n.children| - k
  {
    EitherPart(Declarator1(n.children[k], at + [k]), Declarators(n, k + 1, at), d);
    if d in Declarators(n, k + 1, at) { j := DeclaratorOf(n, k + 1, at, d); } else { j := k; }
  }

  lemma {:induction false} DeclaratorIn(n: Node, k: nat, at: Position, d: Declaration, j: nat)
    requires k <= j < |n.children| && d in Declarator1(n.children[j], at + [j])
    ensures d in Declarators(n, k, at)
    decreases |n.children| - k
  {
    EitherPart(Declarator1(n.children[k], at + [k]), Declarators(n, k + 1, at), d);
    if k < j { DeclaratorIn(n, k + 1, at, d, j); }
  }

  lemma {:induction false} DeclaratorsOrdered(n: Node, k: nat, at: Position)
    requires k <= |n.children|
    ensures InOrder(Declarators(n, k, at))
    decreases |n.children| - k
  {
    if k < |n.children| {
      var first, rest := Declarator1(n.children[k], at + [k]), Declarators(n, k + 1, at);
      forall d | d in first ensures d.at == at + [k] { DeclaratorExactly(n, k, at, d); }
      DeclaratorsOrdered(n, k + 1, at);
      forall d | d in rest ensures Ahead(at + [k], d.at) {
        var j := DeclaratorOf(n, k + 1, at, d);
        DeclaratorExactly(n, j, at, d);
        SiblingAhead(at, k, [], j, []);
        assert at + [k] + [] == at + [k] && at + [j] + [] == at + [j];
      }
      OrderedJoin(first, rest);
    }
  }

  lemma SiblingAhead(at: Position, k: nat, a: Position, j: nat, b: Position)
    requires k < j
    ensures Ahead(at + [k] + a, at + [j] + b)
  {
    var x, y, n := at + [k] + a, at + [j] + b, |at|;
    assert x[..n] == at == y[..n] && x[n] == k && y[n] == j;
  }

  lemma OrderedJoin(a: seq<Declaration>, b: seq<Declaration>)
    requires InOrder(a) && InOrder(b) && forall x, y :: x in a && y in b ==> Ahead(x.at, y.at)
    ensures InOrder(a + b)
  {
    forall i, j | 0 <= i < j < |a + b| ensures Ahead((a + b)[i].at, (a + b)[j].at) {
      if i < |a| <= j { assert a[i] in a && b[j - |a|] in b; }
    }
  }

  lemma VariablesOwn(c: Node, at: Position, d: Declaration)
    requires c.ntype == VariableNode
    ensures Own(JavaScript, c, at, [], d) <==> d in Declarators(c, 0, at)
  {
    if d in Declarators(c, 0, at) {
      var j := DeclaratorOf(c, 0, at, d);
      DeclaratorExactly(c, j, at, d);
      assert Makes(JavaScript, c, [], [j], d.kind, d.name);
    }
    if rel :|
      Makes(JavaScript, c, [], rel, d.kind, d.name) && d.at == at + rel && d.qualified == Dotted([] + [d.name])
    {
      var k: nat :| k < |c.children| && rel == [k] && IsVariable(c.children[k], d.kind, d.name);
      DeclaratorExactly(c, k, at, d);
      DeclaratorIn(c, 0, at, d, k);
    }
  }

  lemma JavaScriptSplits(c: Node, at: Position, scope: seq<string>) returns (own: seq<Declaration>)
    requires !Raises(JavaScript, c)
    ensures Splits(JavaScript, c, at, scope, own, VisitJavaScript(c, at, scope))
  {
    var t := Stand([], c);
    own := [];
    assert at + [] == at;
    if c.ntype == ClassNode && NameOf(c).Some? {
      own := ClassSplit(JavaScript, c, t, at, scope);
    } else if c.ntype == VariableNode && scope == [] {
      own := Declarators(c, 0, at);
      DeclaratorsOrdered(c, 0, at);
      forall d ensures Own(JavaScript, c, at, scope, d) <==> d in own { VariablesOwn(c, at, d); }
    } else if KindOf(JavaScript, c.ntype, scope).Some? && NameOf(c).Some? {
      var kind := KindOf(JavaScript, c.ntype, scope).value;
      own := [Declare(at, kind, scope, NameOf(c).value)];
      forall d ensures Own(JavaScript, c, at, scope, d) <==> d in own { OneOwn(JavaScript, c, at, scope, t, kind, d); }
    } else {
      forall d ensures !Own(JavaScript, c, at, scope, d) { NothingOwn(JavaScript, c, at, scope, d); }
      if Opens(JavaScript, c, scope).Some? { TransparentSplit(JavaScript, c, at, scope); }
    }
  }

  lemma VisitSplits(lang: Language, c: Node, at: Position, scope: seq<string>) returns (own: seq<Declaration>)
    ensures Raises(lang, c) ==> Visit(lang, c, at, scope).None?
    ensures !Raises(lang, c) ==> Splits(lang, c, at, scope, own, Visit(lang, c, at, scope))
  {
    own := [];
    if !Raises(lang, c) {
      if lang == Python { own := PythonSplits(c, at, scope); } else { own := JavaScriptSplits(c, at, scope); }
    }
  }

  // ----------------------------------------------------------------------- the walk

  /** `d` is declared by a node visited at `path` below this one. */
  ghost predicate Below(lang: Language, c: Node, at: Position, scope: seq<string>, path: Position, d: Declaration) {
    && ScopeAt(lang, c, path, scope).Some? && ValidAt(c, path)
    && Own(lang, At(c, path), at + path, ScopeAt(lang, c, path, scope).value, d)
  }

  ghost predicate RaisesBelow(lang: Language, c: Node, scope: seq<string>, path: Position) {
    ScopeAt(lang, c, path, scope).Some? && ValidAt(c, path) && Raises(lang, At(c, path))
  }

  /** What a visit gives: everything declared at or below the node, or nothing when something there raises. */
  ghost predicate VisitIs(lang: Language, c: Node, at: Position, scope: seq<string>, r: Option<seq<Declaration>>) {
    && (r.None? <==> exists path :: RaisesBelow(lang, c, scope, path))
    && (r.Some? ==> forall d :: d in r.value <==> exists path :: Below(lang, c, at, scope, path, d))
  }

  /** The same for the children of a node from the i-th on. */
  ghost predicate WalkIs(
    lang: Language, n: Node, i: nat, at: Position, scope: seq<string>, r: Option<seq<Declaration>>)
  {
    && (r.None? <==> exists k: nat, path :: i <= k < |n.children| && RaisesBelow(lang, n.children[k], scope, path))
    && (r.Some? ==> forall d :: d in r.value <==>
          exists k: nat, path :: i <= k < |n.children| && Below(lang, n.children[k], at + [k], scope, path, d))
  }

  lemma WalkJoins(
    lang: Language, n: Node, i: nat, at: Position, scope: seq<string>, found: Option<seq<Declaration>>,
    rest: Option<seq<Declaration>>)
    requires i < |n.children| && VisitIs(lang, n.children[i], at + [i], scope, found)
        && WalkIs(lang, n, i + 1, at, scope, rest)
    ensures WalkIs(lang, n, i, at, scope, if found.None? || rest.None? then None else Some(found.value + rest.value))
  {
    forall k: nat, path | i <= k < |n.children| && RaisesBelow(lang, n.children[k], scope, path)
      ensures found.None? || rest.None?
    {
      assert k == i || i + 1 <= k;
    }
    if found.Some? && rest.Some? {
      forall d ensures d in found.value + rest.value <==>
        exists k: nat, path :: i <= k < |n.children| && Below(lang, n.children[k], at + [k], scope, path, d)
      {
        EitherPart(found.value, rest.value, d);
        if k: nat, path :| i <= k < |n.children| && Below(lang, n.children[k], at + [k], scope, path, d) {
          assert k == i || i + 1 <= k;
        }
      }
    }
  }

  /** A path below a node is empty, or goes through what the node opens. */
  lemma PathSplits(lang: Language, c: Node, scope: seq<string>, path: Position)
    requires ScopeAt(lang, c, path, scope).Some? && path != []
    ensures Opens(lang, c, scope).Some?
    ensures var inner := Opens(lang, c, scope).value;
            var n := |inner.prefix|;
            && n < |path| && path == inner.prefix + [path[n]] + path[n + 1..] && path[n] < |inner.node.children|
            && Through(lang, c, scope, inner, path[n], path[n + 1..])
  {
    var inner := Opens(lang, c, scope).value;
    CutAt(path, |inner.prefix|);
    ThroughInner(lang, c, scope, inner, path[|inner.prefix|], path[|inner.prefix| + 1..]);
  }

  lemma CutAt(path: Position, n: nat)
    requires n < |path|
    ensures path == path[..n] + [path[n]] + path[n + 1..]
  {
  }

  lemma CutsBack(prefix: Position, k: nat, rest: Position)
    ensures var path, n := prefix + [k] + rest, |prefix|;
            && n < |path| && path[..n] == prefix && path[n] == k && path[n + 1..] == rest
            && path == prefix + ([k] + rest) && ([k] + rest)[1..] == rest
  {
  }

  ghost predicate Through(lang: Language, c: Node, scope: seq<string>, inner: Inner, k: nat, rest: Position) {
    var path := inner.prefix + [k] + rest;
    && k < |inner.node.children| && ScopeAt(lang, c, path, scope)
      == ScopeAt(lang, inner.node.children[k], rest, inner.scope)
    && (ValidAt(c, path) <==> ValidAt(inner.node.children[k], rest))
    && (ValidAt(c, path) ==> At(c, path) == At(inner.node.children[k], rest))
  }

  lemma ThroughInner(lang: Language, c: Node, scope: seq<string>, inner: Inner, k: nat, rest: Position)
    requires Opens(lang, c, scope) == Some(inner) && k < |inner.node.children|
    ensures Through(lang, c, scope, inner, k, rest)
  {
    CutsBack(inner.prefix, k, rest);
    InnerValid(lang, c, scope);
    ValidJoins(c, inner.prefix, [k] + rest);
    ChildAt(inner.node, k, rest);
  }

  lemma ChildAt(n: Node, k: nat, rest: Position)
    requires k < |n.children|
    ensures ValidAt(n, [k] + rest) <==> ValidAt(n.children[k], rest)
    ensures ValidAt(n, [k] + rest) ==> At(n, [k] + rest) == At(n.children[k], rest)
  {
    assert ([k] + rest)[1..] == rest;
  }

  lemma BelowThrough(
    lang: Language, c: Node, at: Position, scope: seq<string>, inner: Inner, k: nat, rest: Position, d: Declaration)
    requires Opens(lang, c, scope) == Some(inner) && k < |inner.node.children|
    ensures Below(lang, c, at, scope, inner.prefix + [k] + rest, d)
        <==> Below(lang, inner.node.children[k], at + inner.prefix + [k], inner.scope, rest, d)
    ensures RaisesBelow(lang, c, scope, inner.prefix + [k] + rest)
        <==> RaisesBelow(lang, inner.node.children[k], inner.scope, rest)
  {
    ThroughInner(lang, c, scope, inner, k, rest);
    assert at + (inner.prefix + [k] + rest) == (at + inner.prefix + [k]) + rest;
  }

  lemma AtItself(lang: Language, c: Node, at: Position, scope: seq<string>, d: Declaration)
    ensures Below(lang, c, at, scope, [], d) <==> Own(lang, c, at, scope, d)
    ensures RaisesBelow(lang, c, scope, []) <==> Raises(lang, c)
  {
    assert at + [] == at;
  }

  lemma RaisingOpensNothing(lang: Language, c: Node, scope: seq<string>)
    requires Raises(lang, c)
    ensures Opens(lang, c, scope).None?
  {
  }

  lemma ClosedVisit(lang: Language, c: Node, at: Position, scope: seq<string>, r: Option<seq<Declaration>>)
    requires Opens(lang, c, scope).None?
    requires Raises(lang, c) ==> r.None?
    requires !Raises(lang, c) ==> r.Some? && forall d :: d in r.value <==> Own(lang, c, at, scope, d)
    ensures VisitIs(lang, c, at, scope, r)
  {
    forall d ensures Below(lang, c, at, scope, [], d) <==> Own(lang, c, at, scope, d) {
      AtItself(lang, c, at, scope, d);
    }
    assert RaisesBelow(lang, c, scope, []) <==> Raises(lang, c);
    forall path | ScopeAt(lang, c, path, scope).Some? ensures path == [] {}
  }

  lemma OpenVisit(
    lang: Language, c: Node, at: Position, scope: seq<string>, own: seq<Declaration>, inner: Inner,
    below: Option<seq<Declaration>>)
    requires Opens(lang, c, scope) == Some(inner) && !Raises(lang, c)
    requires (forall d :: d in own <==> Own(lang, c, at, scope, d))
    requires WalkIs(lang, inner.node, 0, at + inner.prefix, inner.scope, below)
    ensures VisitIs(lang, c, at, scope, if below.None? then None else Some(own + below.value))
  {
    OpenRaises(lang, c, scope, inner);
    if below.Some? {
      forall d ensures d in own + below.value <==> exists path :: Below(lang, c, at, scope, path, d) {
        OpenMember(lang, c, at, scope, own, inner, below.value, d);
      }
    }
  }

  lemma OpenMember(
    lang: Language, c: Node, at: Position, scope: seq<string>, own: seq<Declaration>, inner: Inner,
    below: seq<Declaration>, d: Declaration)
    requires Opens(lang, c, scope) == Some(inner) && (d in own <==> Own(lang, c, at, scope, d))
    requires WalkIs(lang, inner.node, 0, at + inner.prefix, inner.scope, Some(below))
    ensures d in own + below <==> exists path :: Below(lang, c, at, scope, path, d)
  {
    EitherPart(own, below, d);
    OpenBelow(lang, c, at, scope, inner, d);
    InnerWalk(lang, inner, at, below, d);
  }

  lemma OpenRaises(lang: Language, c: Node, scope: seq<string>, inner: Inner)
    requires Opens(lang, c, scope) == Some(inner) && !Raises(lang, c)
    ensures (exists path :: RaisesBelow(lang, c, scope, path))
        <==> exists k: nat, rest :: k < |inner.node.children| && RaisesBelow(lang, inner.node.children[k],
          inner.scope, rest)
  {
    if path :| RaisesBelow(lang, c, scope, path) {
      if path != [] {
        PathSplits(lang, c, scope, path);
        var n := |inner.prefix|;
        assert RaisesBelow(lang, inner.node.children[path[n]], inner.scope, path[n + 1..]);
      }
    }
    if k: nat, rest :| k < |inner.node.children| && RaisesBelow(lang, inner.node.children[k], inner.scope, rest) {
      ThroughInner(lang, c, scope, inner, k, rest);
      assert RaisesBelow(lang, c, scope, inner.prefix + [k] + rest);
    }
  }

  ghost predicate BelowInner(lang: Language, inner: Inner, at: Position, k: nat, rest: Position, d: Declaration) {
    k < |inner.node.children| && Below(lang, inner.node.children[k], at + inner.prefix + [k], inner.scope, rest, d)
  }

  lemma InnerWalk(lang: Language, inner: Inner, at: Position, below: seq<Declaration>, d: Declaration)
    requires WalkIs(lang, inner.node, 0, at + inner.prefix, inner.scope, Some(below))
    ensures d in below <==> exists k: nat, rest :: BelowInner(lang, inner, at, k, rest, d)
  {
    if d in below {
      var k: nat, path :| k < |inner.node.children|
        && Below(lang, inner.node.children[k], at + inner.prefix + [k], inner.scope, path, d);
      assert BelowInner(lang, inner, at, k, path, d);
    }
  }

  lemma OpenBelowOut(
    lang: Language, c: Node, at: Position, scope: seq<string>, inner: Inner, k: nat, rest: Position, d: Declaration)
    requires Opens(lang, c, scope) == Some(inner) && BelowInner(lang, inner, at, k, rest, d)
    ensures Below(lang, c, at, scope, inner.prefix + [k] + rest, d)
  {
    BelowThrough(lang, c, at, scope, inner, k, rest, d);
  }

  lemma OpenBelowIn(lang: Language, c: Node, at: Position, scope: seq<string>, inner: Inner, path: Position,
      d: Declaration)
    requires Opens(lang, c, scope) == Some(inner) && path != [] && Below(lang, c, at, scope, path, d)
    ensures var n := |inner.prefix|; n < |path| && BelowInner(lang, inner, at, path[n], path[n + 1..], d)
  {
    PathSplits(lang, c, scope, path);
    BelowThrough(lang, c, at, scope, inner, path[|inner.prefix|], path[|inner.prefix| + 1..], d);
  }

  lemma OpenBelowEither(lang: Language, c: Node, at: Position, scope: seq<string>, inner: Inner, path: Position,
      d: Declaration)
    requires Opens(lang, c, scope) == Some(inner) && Below(lang, c, at, scope, path, d)
    ensures Own(lang, c, at, scope, d) || exists k: nat, rest :: BelowInner(lang, inner, at, k, rest, d)
  {
    if path == [] { AtItself(lang, c, at, scope, d); } else { OpenBelowIn(lang, c, at, scope, inner, path, d); }
  }

  lemma OpenBelow(lang: Language, c: Node, at: Position, scope: seq<string>, inner: Inner, d: Declaration)
    requires Opens(lang, c, scope) == Some(inner)
    ensures (exists path :: Below(lang, c, at, scope, path, d))
        <==> Own(lang, c, at, scope, d) || exists k: nat, rest :: BelowInner(lang, inner, at, k, rest, d)
  {
    forall path | Below(lang, c, at, scope, path, d)
      ensures Own(lang, c, at, scope, d) || exists k: nat, rest :: BelowInner(lang, inner, at, k, rest, d)
    {
      OpenBelowEither(lang, c, at, scope, inner, path, d);
    }
    forall k: nat, rest | BelowInner(lang, inner, at, k, rest, d)
      ensures Below(lang, c, at, scope, inner.prefix + [k] + rest, d)
    {
      OpenBelowOut(lang, c, at, scope, inner, k, rest, d);
    }
    AtItself(lang, c, at, scope, d);
  }

  lemma {:induction false} VisitExactly(lang: Language, c: Node, at: Position, scope: seq<string>)
    ensures VisitIs(lang, c, at, scope, Visit(lang, c, at, scope))
    decreases c, |c.children| + 1
  {
    var own := VisitSplits(lang, c, at, scope);
    if Opens(lang, c, scope).None? {
      ClosedVisit(lang, c, at, scope, Visit(lang, c, at, scope));
    } else {
      var inner := Opens(lang, c, scope).value;
      if Raises(lang, c) { RaisingOpensNothing(lang, c, scope); }
      WalkExactly(lang, inner.node, 0, at + inner.prefix, inner.scope);
      OpenVisit(lang, c, at, scope, own, inner, Walk(lang, inner.node, 0, at + inner.prefix, inner.scope));
    }
  }

  lemma {:induction false} WalkExactly(lang: Language, n: Node, i: nat, at: Position, scope: seq<string>)
    requires i <= |n.children|
    ensures WalkIs(lang, n, i, at, scope, Walk(lang, n, i, at, scope))
    decreases n, |n.children| - i
  {
    if i < |n.children| {
      VisitExactly(lang, n.children[i], at + [i], scope);
      WalkExactly(lang, n, i + 1, at, scope);
      WalkJoins(lang, n, i, at, scope, Visit(lang, n.children[i], at + [i], scope), Walk(lang, n, i + 1, at, scope));
    }
  }

  // ---------------------------------------------------------------------- in order

  lemma OwnUnder(lang: Language, c: Node, at: Position, scope: seq<string>, d: Declaration)
    requires Own(lang, c, at, scope, d)
    ensures at <= d.at
  {
  }

  lemma VisitUnder(lang: Language, c: Node, at: Position, scope: seq<string>, d: Declaration)
    requires Visit(lang, c, at, scope).Some? && d in Visit(lang, c, at, scope).value
    ensures at <= d.at
  {
    VisitExactly(lang, c, at, scope);
    var path :| Below(lang, c, at, scope, path, d);
    BelowUnder(lang, c, at, scope, path, d);
  }

  ghost predicate FromChild(at: Position, i: nat, d: Declaration) {
    exists k: nat, rest :: i <= k && d.at == at + [k] + rest
  }

  lemma WalkUnder(lang: Language, n: Node, i: nat, at: Position, scope: seq<string>, d: Declaration)
    requires i <= |n.children| && Walk(lang, n, i, at, scope).Some? && d in Walk(lang, n, i, at, scope).value
    ensures FromChild(at, i, d)
  {
    WalkExactly(lang, n, i, at, scope);
    var k: nat, path :| i <= k < |n.children| && Below(lang, n.children[k], at + [k], scope, path, d);
    BelowUnder(lang, n.children[k], at + [k], scope, path, d);
    UnderChild(at, i, k, d);
  }

  lemma UnderChild(at: Position, i: nat, k: nat, d: Declaration)
    requires i <= k && at + [k] <= d.at
    ensures FromChild(at, i, d)
  {
    assert d.at == at + [k] + d.at[|at + [k]|..];
  }

  lemma BelowUnder(lang: Language, c: Node, at: Position, scope: seq<string>, path: Position, d: Declaration)
    requires Below(lang, c, at, scope, path, d)
    ensures at <= d.at
  {
    OwnUnder(lang, At(c, path), at + path, ScopeAt(lang, c, path, scope).value, d);
    assert at <= at + path;
  }

  /** A node that opens declares itself, if anything, and that contains all that is below. */
  lemma OwnContains(
    lang: Language, c: Node, at: Position, scope: seq<string>, inner: Inner, x: Declaration, y: Declaration)
    requires Opens(lang, c, scope) == Some(inner) && Own(lang, c, at, scope, x) && FromChild(at + inner.prefix, 0, y)
    ensures Ahead(x.at, y.at)
  {
    var t := Stands(lang, c).value;
    var k: nat, rest :| y.at == (at + inner.prefix) + [k] + rest;
    var n := |x.at|;
    assert x.at == at + t.prefix && t.prefix <= inner.prefix;
    assert x.at <= at + inner.prefix <= y.at;
    assert x.at[..n] == y.at[..n];
  }

  lemma {:induction false} VisitOrdered(lang: Language, c: Node, at: Position, scope: seq<string>)
    ensures Visit(lang, c, at, scope).Some? ==> InOrder(Visit(lang, c, at, scope).value)
    decreases c, |c.children| + 1
  {
    var own := VisitSplits(lang, c, at, scope);
    if Visit(lang, c, at, scope).Some? && Opens(lang, c, scope).Some? {
      var inner := Opens(lang, c, scope).value;
      WalkOrdered(lang, inner.node, 0, at + inner.prefix, inner.scope);
      var below := Walk(lang, inner.node, 0, at + inner.prefix, inner.scope).value;
      forall x, y | x in own && y in below ensures Ahead(x.at, y.at) {
        WalkUnder(lang, inner.node, 0, at + inner.prefix, inner.scope, y);
        OwnContains(lang, c, at, scope, inner, x, y);
      }
      OrderedJoin(own, below);
    }
  }

  lemma {:induction false} WalkOrdered(lang: Language, n: Node, i: nat, at: Position, scope: seq<string>)
    requires i <= |n.children|
    ensures Walk(lang, n, i, at, scope).Some? ==> InOrder(Walk(lang, n, i, at, scope).value)
    decreases n, |n.children| - i
  {
    if i < |n.children| && Walk(lang, n, i, at, scope).Some? {
      var found, rest := Visit(lang, n.children[i], at + [i], scope).value, Walk(lang, n, i + 1, at, scope).value;
      VisitOrdered(lang, n.children[i], at + [i], scope);
      WalkOrdered(lang, n, i + 1, at, scope);
      forall x, y | x in found && y in rest ensures Ahead(x.at, y.at) { LeftAhead(lang, n, i, at, scope, x, y); }
      OrderedJoin(found, rest);
    }
  }

  lemma LeftAhead(lang: Language, n: Node, i: nat, at: Position, scope: seq<string>, x: Declaration, y: Declaration)
    requires i < |n.children| && Walk(lang, n, i, at, scope).Some?
    requires x in Visit(lang, n.children[i], at + [i], scope).value && y in Walk(lang, n, i + 1, at, scope).value
    ensures Ahead(x.at, y.at)
  {
    VisitUnder(lang, n.children[i], at + [i], scope, x);
    WalkUnder(lang, n, i + 1, at, scope, y);
    var k: nat, rest :| i + 1 <= k && y.at == at + [k] + rest;
    assert x.at == at + [i] + x.at[|at + [i]|..];
    SiblingAhead(at, i, x.at[|at + [i]|..], k, rest);
  }

  // ------------------------------------------------------------------ a whole file

  /** The node at `at` is visited, and declares `d` itself. */
  ghost predicate DeclaredAt(lang: Language, root: Node, at: Position, d: Declaration) {
    && ScopeBelow(lang, root, at, []).Some? && ValidAt(root, at)
    && Own(lang, At(root, at), at, ScopeBelow(lang, root, at, []).value, d)
  }

  ghost predicate RaisesAt(lang: Language, root: Node, at: Position) {
    ScopeBelow(lang, root, at, []).Some? && ValidAt(root, at) && Raises(lang, At(root, at))
  }

  lemma FirstStep(lang: Language, root: Node, k: nat, path: Position, d: Declaration)
    requires k < |root.children|
    ensures DeclaredAt(lang, root, [k] + path, d) <==> Below(lang, root.children[k], [k], [], path, d)
    ensures RaisesAt(lang, root, [k] + path) <==> RaisesBelow(lang, root.children[k], [], path)
  {
    assert ([k] + path)[1..] == path;
  }

  /** The walk of a file raises exactly when a node it visits lacks a name it must have. Otherwise it gives, in the
      order of the text, exactly what the nodes visited declare. */
  lemma DeclaredExactly(lang: Language, root: Node)
    ensures var r := Walk(lang, root, 0, [], []);
            && (r.None? <==> exists at :: RaisesAt(lang, root, at))
            && (r.Some? ==>
                  InOrder(r.value) && forall d :: d in r.value <==> exists at :: DeclaredAt(lang, root, at, d))
  {
    var r := Walk(lang, root, 0, [], []);
    WalkExactly(lang, root, 0, [], []);
    WalkOrdered(lang, root, 0, [], []);
    WalkRaises(lang, root, r);
    if r.Some? {
      forall d ensures d in r.value <==> exists at :: DeclaredAt(lang, root, at, d) {
        WalkDeclares(lang, root, r.value, d);
      }
    }
  }

  lemma WalkRaises(lang: Language, root: Node, r: Option<seq<Declaration>>)
    requires WalkIs(lang, root, 0, [], [], r)
    ensures r.None? <==> exists at :: RaisesAt(lang, root, at)
  {
    forall k: nat, path | k < |root.children|
      ensures RaisesAt(lang, root, [k] + path) <==> RaisesBelow(lang, root.children[k], [], path)
    {
      FirstStep(lang, root, k, path, Declaration([], Class, "", ""));
    }
    if at :| RaisesAt(lang, root, at) {
      assert at == [at[0]] + at[1..];
      assert RaisesBelow(lang, root.children[at[0]], [], at[1..]);
    }
  }

  lemma WalkDeclares(lang: Language, root: Node, r: seq<Declaration>, d: Declaration)
    requires WalkIs(lang, root, 0, [], [], Some(r))
    ensures d in r <==> exists at :: DeclaredAt(lang, root, at, d)
  {
    if d in r {
      var k: nat, path :| k < |root.children| && Below(lang, root.children[k], [] + [k], [], path, d);
      assert [] + [k] == [k];
      FirstStep(lang, root, k, path, d);
    }
    if at :| DeclaredAt(lang, root, at, d) {
      assert at == [at[0]] + at[1..] && [] + [at[0]] == [at[0]];
      FirstStep(lang, root, at[0], at[1..], d);
    }
  }
}
